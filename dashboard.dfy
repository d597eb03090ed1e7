/**
 * The "Apply Filters" step and what is computed from its result: the filtered
 * rows, the KPIs, the chart series and the preview.
 */
module Dashboard {
  import opened Wrappers
  import opened Frame
  import opened Cascade
  import opened Aggregation

  /**
   * `filtered_df`: start from the whole frame and narrow it by each
   * non-empty selection in turn (State, then LGA, then Facility).
   */
  method ApplyFilters(df: seq<Row>, states: set<string>, lgas: set<string>, facilities: set<string>)
    returns (filtered: seq<Row>)
    ensures filtered == Select(df, Matches(states, lgas, facilities))
    ensures forall r :: r in filtered ==>
      Admits(r, State, states) && Admits(r, Lga, lgas) && Admits(r, FacilityName, facilities)
    ensures forall r :: (r in df && Admits(r, State, states) && Admits(r, Lga, lgas)
                         && Admits(r, FacilityName, facilities)) ==> r in filtered
    ensures IsSubsequence(filtered, df)
    ensures states == {} && lgas == {} && facilities == {} ==> filtered == df
  {
    filtered := df;
    if states != {} {
      filtered := Select(filtered, KeyIn(State, states));
    }
    if lgas != {} {
      filtered := Select(filtered, KeyIn(Lga, lgas));
    }
    // The first two steps are exactly the rows the Facility options come from.
    assert filtered == FacilityStage(df, states, lgas);
    if facilities != {} {
      SelectFuse(df, Matches(states, lgas, {}), KeyIn(FacilityName, facilities), Matches(states, lgas, facilities));
      filtered := Select(filtered, KeyIn(FacilityName, facilities));
    }
    if states == {} && lgas == {} && facilities == {} {
      SelectAll(df, Matches(states, lgas, facilities));
    }
  }

  /** Every applied row lies within the options the cascade offered for the same choices. */
  lemma AppliedRowsWithinOptions(df: seq<Row>, states: set<string>, lgas: set<string>, facilities: set<string>)
    ensures forall r :: r in Select(df, Matches(states, lgas, facilities)) && r.lga.Some? ==>
      r.lga.value in LgaOptions(df, states)
    ensures forall r :: r in Select(df, Matches(states, lgas, facilities)) ==>
      r.facilityName.Some? ==> r.facilityName.value in FacilityOptions(df, states, lgas)
  {
  }

  /**
   * A non-empty LGA selection that none of the current LGA options match
   * filters everything out.
   */
  lemma UnmatchedLgaChoiceEmpties(df: seq<Row>, states: set<string>, lgas: set<string>, facilities: set<string>)
    requires lgas != {}
    requires forall x :: x in lgas ==> x !in LgaOptions(df, states)
    ensures Select(df, Matches(states, lgas, facilities)) == []
  {
  }

  /** Everything shown after "Apply Filters". */
  datatype Report = Report(
    filtered: seq<Row>,
    metrics: Metrics,
    txCurrByFacility: seq<Group>,
    pvlsDByLga: seq<Group>,
    pvlsNByLga: seq<Group>,
    vlEligibleByLga: seq<Group>,
    preview: seq<Row>)

  /** Load the sheet, apply the three selections and compute the dashboard. */
  method Run(raw: seq<Row>, states: set<string>, lgas: set<string>, facilities: set<string>)
    returns (report: Report)
    ensures report.filtered == Select(Load(raw), Matches(states, lgas, facilities))
    ensures states == {} && lgas == {} && facilities == {} ==> report.filtered == Load(raw)
    ensures report.metrics == Indicators(report.filtered)
    ensures report.txCurrByFacility == GroupTotals(report.filtered, FacilityName, TxCurr)
    ensures report.pvlsDByLga == GroupTotals(report.filtered, Lga, TxPvlsD)
    ensures report.pvlsNByLga == GroupTotals(report.filtered, Lga, TxPvlsN)
    ensures report.vlEligibleByLga == GroupTotals(report.filtered, Lga, VlEligible)
    ensures |report.pvlsNByLga| == |report.pvlsDByLga| == |report.vlEligibleByLga|
    ensures forall i :: 0 <= i < |report.pvlsDByLga| ==>
      report.pvlsNByLga[i].key == report.pvlsDByLga[i].key == report.vlEligibleByLga[i].key
    ensures SumTotals(report.txCurrByFacility) == report.metrics.txCurr
    ensures SumTotals(report.pvlsDByLga) == Total(Select(report.filtered, NotNull(Lga)), TxPvlsD)
    ensures SumTotals(report.pvlsNByLga) == Total(Select(report.filtered, NotNull(Lga)), TxPvlsN)
    ensures SumTotals(report.vlEligibleByLga) == Total(Select(report.filtered, NotNull(Lga)), VlEligible)
    ensures report.preview <= report.filtered
    ensures |report.preview| == if |report.filtered| < PreviewRows then |report.filtered| else PreviewRows
  {
    var df := Load(raw);
    var filtered := ApplyFilters(df, states, lgas, facilities);
    var metrics := Indicators(filtered);
    var byFacility := GroupTotals(filtered, FacilityName, TxCurr);
    FacilityChartMatchesTxCurr(filtered);
    var pvlsD := GroupTotals(filtered, Lga, TxPvlsD);
    var pvlsN := GroupTotals(filtered, Lga, TxPvlsN);
    var eligible := GroupTotals(filtered, Lga, VlEligible);
    GroupTotalsSum(filtered, Lga, TxPvlsD);
    GroupTotalsSum(filtered, Lga, TxPvlsN);
    GroupTotalsSum(filtered, Lga, VlEligible);
    GroupKeysShared(filtered, Lga, TxPvlsD, TxPvlsN);
    GroupKeysShared(filtered, Lga, TxPvlsD, VlEligible);
    report := Report(filtered, metrics, byFacility, pvlsD, pvlsN, eligible, Preview(filtered));
  }

  /** The two rows of a worked example: one facility in State A, one in State B. */
  const RowA := Row(Some("A"), Some("L1"), Some("F1"), 10, 0, 5, 4, 2, 0, 0, 0, 0)
  const RowB := Row(Some("B"), Some("L2"), Some("F2"), 20, 0, 0, 0, 0, 0, 0, 0, 0)

  /** Choosing State A keeps A's row: TX_CURR 10, VL coverage 80%, VL suppression 50%. */
  lemma ExampleStateA()
    ensures Select([RowA, RowB], Matches({"A"}, {}, {})) == [RowA]
    ensures Indicators([RowA]).txCurr == 10
    ensures Indicators([RowA]).vlCoverage == 80.0
    ensures Indicators([RowA]).vlSuppression == 50.0
  {
    assert [RowA, RowB][1..] == [RowB];
    assert [RowA][1..] == [];
    assert Total([RowA], VlEligible) == 5;
    assert Total([RowA], TxPvlsD) == 4;
    assert Total([RowA], TxPvlsN) == 2;
  }

  /** Choosing State B keeps B's row, whose zero denominators give 0% for both percentages. */
  lemma ExampleStateB()
    ensures Select([RowA, RowB], Matches({"B"}, {}, {})) == [RowB]
    ensures Indicators([RowB]).vlCoverage == 0.0
    ensures Indicators([RowB]).vlSuppression == 0.0
  {
    assert [RowA, RowB][1..] == [RowB];
    assert [RowB][1..] == [];
    assert Total([RowB], VlEligible) == 0;
    assert Total([RowB], TxPvlsD) == 0;
  }
}
