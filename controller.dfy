/**
 * The dashboard controller `AppCtrl` (app/application.js:14-256), reduced to
 * the state its filtering and aggregation code reads and writes. The rows
 * come in as a parameter of `OnInit` (the CSV fetch is not modelled) and the
 * map's counties, once drawn, as a list of names (the topology file is not
 * modelled); the colours those counties are painted with are returned.
 */
module Controller {
  import opened Records
  import opened DiseaseList
  import opened Aggregation
  import opened Colouring

  /** One entry of `distributionBySex`: `{ sex, value }`. */
  datatype SexBin = SexBin(sex: string, value: nat)

  /** The bins `_distributionFilterBySex` leaves behind for these rows. */
  function Distribution(rows: seq<Record>): seq<SexBin>
  {
    [SexBin("Male", SexSum(rows, "Male")), SexBin("Female", SexSum(rows, "Female"))]
  }

  class AppCtrl {
    /** `self.infectiousDiseaseData` */
    var data: seq<Record>
    /** `self.diseases` */
    var diseases: seq<string>
    /** `self.diseaseSelected` */
    var diseaseSelected: Option<string>
    /** `self.distributionBySex`; empty until the first `filter` */
    var distributionBySex: seq<SexBin>
    /** `self.barSize`; 0 until the first `filter` */
    var barSize: nat

    /** The disease list has no duplicates and the selection is taken from it. */
    ghost predicate Valid()
      reads this
    {
      NoDup(diseases) &&
      (diseaseSelected.Some? ==> diseaseSelected.value in diseases)
    }

    constructor ()
      ensures Valid()
      ensures data == [] && diseases == [] && diseaseSelected == None
      ensures distributionBySex == [] && barSize == 0
    {
      data := [];
      diseases := [];
      diseaseSelected := None;
      distributionBySex := [];
      barSize := 0;
    }

    /** `_setDiseaseList()` */
    method SetDiseaseList()
      requires Valid()
      modifies this`diseases, this`diseaseSelected
      ensures Valid()
      ensures diseases == AddDiseases(old(diseases), data)
      ensures diseaseSelected == if diseases == [] then None else Some(diseases[0])
    {
      for i := 0 to |data|
        invariant diseases == AddDiseases(old(diseases), data[..i])
      {
        assert data[..i + 1][..i] == data[..i];
        if data[i].disease !in diseases {
          diseases := diseases + [data[i].disease];
        }
      }
      assert data[..|data|] == data;
      AddDiseasesNoDup(old(diseases), data);
      diseaseSelected := if diseases == [] then None else Some(diseases[0]);
    }

    /** `_distributionFilterBySex(filteredDiseases)` */
    method DistributionFilterBySex(filteredDiseases: seq<Record>)
      modifies this`distributionBySex, this`barSize
      ensures distributionBySex == Distribution(filteredDiseases)
      ensures barSize == Larger(SexSum(filteredDiseases, "Male"), SexSum(filteredDiseases, "Female"))
    {
      distributionBySex := [SexBin("Male", 0), SexBin("Female", 0)];
      for i := 0 to |filteredDiseases|
        invariant distributionBySex == Distribution(filteredDiseases[..i])
      {
        var row := filteredDiseases[i];
        assert filteredDiseases[..i + 1] == filteredDiseases[..i] + [row];
        SexSumAppend(filteredDiseases[..i], [row], "Male");
        SexSumAppend(filteredDiseases[..i], [row], "Female");
        if row.sex == "Male" {
          distributionBySex := distributionBySex[0 := distributionBySex[0].(value := distributionBySex[0].value + row.count)];
        } else if row.sex == "Female" {
          distributionBySex := distributionBySex[1 := distributionBySex[1].(value := distributionBySex[1].value + row.count)];
        }
      }
      assert filteredDiseases[..|filteredDiseases|] == filteredDiseases;
      barSize := if distributionBySex[0].value > distributionBySex[1].value then distributionBySex[0].value else distributionBySex[1].value;
    }

    /**
     * `filter(yearSelected)`: the rows of the selected disease and year are
     * aggregated by sex, and each county of the map gets its fill.
     */
    method Filter(yearSelected: string, counties: seq<string>) returns (fills: seq<Option<string>>)
      modifies this`distributionBySex, this`barSize
      ensures var filtered := FilterRecords(data, diseaseSelected, yearSelected);
        distributionBySex == Distribution(filtered) &&
        barSize == Larger(SexSum(filtered, "Male"), SexSum(filtered, "Female")) &&
        |fills| == |counties| &&
        forall k :: 0 <= k < |counties| ==> fills[k] == CountyFill(filtered, counties[k])
    {
      var filteredDiseases := FilterRecords(data, diseaseSelected, yearSelected);
      DistributionFilterBySex(filteredDiseases);
      fills := PaintCounties(filteredDiseases, counties);
    }

    /**
     * `onInit()` once the CSV has arrived: the rows are stored, the disease
     * list is built and the rows are filtered for the year "2005". The map's
     * county paths are only added later, when the topology file has arrived,
     * so this filter paints no county.
     */
    method OnInit(loaded: seq<Record>)
      requires Valid()
      modifies this
      ensures Valid()
      ensures data == loaded
      ensures diseases == AddDiseases(old(diseases), loaded)
      ensures diseaseSelected == if diseases == [] then None else Some(diseases[0])
      ensures var filtered := FilterRecords(loaded, diseaseSelected, "2005");
        distributionBySex == Distribution(filtered) &&
        barSize == Larger(SexSum(filtered, "Male"), SexSum(filtered, "Female"))
    {
      data := loaded;
      SetDiseaseList();
      var painted := Filter("2005", []);
    }

    /** `selectedItemChange(item)`: the map is filtered again for the year "2005". */
    method SelectedItemChange(counties: seq<string>) returns (fills: seq<Option<string>>)
      modifies this`distributionBySex, this`barSize
      ensures var filtered := FilterRecords(data, diseaseSelected, "2005");
        distributionBySex == Distribution(filtered) &&
        barSize == Larger(SexSum(filtered, "Male"), SexSum(filtered, "Female")) &&
        |fills| == |counties| &&
        forall k :: 0 <= k < |counties| ==> fills[k] == CountyFill(filtered, counties[k])
    {
      fills := Filter("2005", counties);
    }
  }

  /**
   * After loading into a fresh controller, the disease list holds each
   * disease of the data once, in order of first appearance, and the
   * selection is the first row's disease (undefined for no rows).
   */
  lemma InitialDiseaseList(loaded: seq<Record>)
    ensures var ds := AddDiseases([], loaded);
      NoDup(ds) &&
      (forall x :: x in ds <==> x in DiseaseColumn(loaded)) &&
      (forall i, j :: 0 <= i < j < |ds| ==>
        FirstIndex(DiseaseColumn(loaded), ds[i]) < FirstIndex(DiseaseColumn(loaded), ds[j])) &&
      (loaded == [] <==> ds == []) &&
      (loaded != [] ==> ds[0] == loaded[0].disease)
  {
    var ds := AddDiseases([], loaded);
    AddDiseasesNoDup([], loaded);
    forall x ensures x in ds <==> x in DiseaseColumn(loaded) {
      AddDiseasesMembers([], loaded, x);
    }
    AddDiseasesFirstOccurrenceOrder(loaded);
    if loaded != [] {
      AddDiseasesHead(loaded);
    }
  }
}
