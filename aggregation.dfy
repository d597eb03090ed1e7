/**
 * The KPIs over the filtered rows: column totals (`Series.sum()`), the two
 * guarded percentages, the per-key group totals behind the bar charts
 * (`groupby(key)[column].sum()`), and the 100-row preview (`head(100)`).
 */
module Aggregation {
  import opened Wrappers
  import opened Frame
  import opened Cascade

  /** The count columns that are summed. */
  datatype Column =
    | TxCurr | TxNew | VlEligible | TxPvlsD | TxPvlsN
    | Pbs | PbsRecaptured | IitCases | PbsNdr

  function Count(r: Row, c: Column): (n: int)
  {
    match c
    case TxCurr => r.txCurrEmr
    case TxNew => r.txNewEmr
    case VlEligible => r.vlEligibleEmr
    case TxPvlsD => r.txPvlsDEmr
    case TxPvlsN => r.txPvlsNEmr
    case Pbs => r.pbsEmr
    case PbsRecaptured => r.pbsRecapturedEmr
    case IitCases => r.iitQuarter
    case PbsNdr => r.pbsNdr
  }

  /** `rows[c].sum()`. */
  function Total(rows: seq<Row>, c: Column): (t: int)
    ensures (forall r :: r in rows ==> Count(r, c) == 0) ==> t == 0
    ensures (forall r :: r in rows ==> Count(r, c) >= 0) ==> t >= 0
  {
    if rows == [] then 0
    else
      assert forall r :: r in rows[1..] ==> r in rows;
      Count(rows[0], c) + Total(rows[1..], c)
  }

  /** A total over two consecutive blocks of rows is the sum of their totals. */
  lemma {:induction false} TotalAppend(a: seq<Row>, b: seq<Row>, c: Column)
    ensures Total(a + b, c) == Total(a, c) + Total(b, c)
  {
    if a == [] {
      assert a + b == b;
    } else {
      assert (a + b)[1..] == a[1..] + b;
      TotalAppend(a[1..], b, c);
    }
  }

  /** Splitting a set of keys into two disjoint parts splits the total over the rows they select. */
  lemma {:induction false} TotalKeyInUnion(rows: seq<Row>, f: Field, k1: set<string>, k2: set<string>, c: Column)
    requires k1 !! k2
    ensures Total(Select(rows, KeyIn(f, k1 + k2)), c)
         == Total(Select(rows, KeyIn(f, k1)), c) + Total(Select(rows, KeyIn(f, k2)), c)
  {
    if rows != [] {
      TotalKeyInUnion(rows[1..], f, k1, k2, c);
    }
  }

  /**
   * `num / den * 100 if den > 0 else 0`: a percentage that is exactly 0 when
   * the denominator is not positive, never a division by zero.
   */
  function Percent(num: int, den: int): (p: real)
    ensures den <= 0 ==> p == 0.0
    ensures den > 0 ==> p * (den as real) == (num as real) * 100.0
    ensures den > 0 && num >= 0 ==> p >= 0.0
    ensures den > 0 ==> (p <= 100.0 <==> num <= den)
  {
    if den > 0 then (num as real) / (den as real) * 100.0 else 0.0
  }

  /** The nine KPI totals and the two derived percentages. */
  datatype Metrics = Metrics(
    txCurr: int, txNew: int, vlEligible: int, txPvlsD: int, txPvlsN: int,
    pbs: int, pbsRecaptured: int, iitCases: int, fingerprints: int,
    vlCoverage: real, vlSuppression: real)

  function Indicators(rows: seq<Row>): (m: Metrics)
    ensures rows == [] ==> m == Metrics(0, 0, 0, 0, 0, 0, 0, 0, 0, 0.0, 0.0)
    ensures m.txCurr == Total(rows, TxCurr) && m.txNew == Total(rows, TxNew)
    ensures m.vlEligible == Total(rows, VlEligible)
    ensures m.txPvlsD == Total(rows, TxPvlsD) && m.txPvlsN == Total(rows, TxPvlsN)
    ensures m.pbs == Total(rows, Pbs) && m.pbsRecaptured == Total(rows, PbsRecaptured)
    ensures m.iitCases == Total(rows, IitCases) && m.fingerprints == Total(rows, PbsNdr)
    ensures m.vlCoverage == Percent(m.txPvlsD, m.vlEligible)
    ensures m.vlSuppression == Percent(m.txPvlsN, m.txPvlsD)
  {
    var txPvlsD := Total(rows, TxPvlsD);
    var vlEligible := Total(rows, VlEligible);
    var txPvlsN := Total(rows, TxPvlsN);
    Metrics(
      Total(rows, TxCurr), Total(rows, TxNew), vlEligible, txPvlsD, txPvlsN,
      Total(rows, Pbs), Total(rows, PbsRecaptured), Total(rows, IitCases), Total(rows, PbsNdr),
      Percent(txPvlsD, vlEligible), Percent(txPvlsN, txPvlsD))
  }

  /**
   * With non-negative counts, both percentages are non-negative; when its
   * denominator is positive, each is at most 100 exactly when its numerator
   * does not exceed its denominator (otherwise it is exactly 0).
   */
  lemma PercentagesInRange(rows: seq<Row>)
    requires forall r :: r in rows ==> Count(r, TxPvlsD) >= 0 && Count(r, TxPvlsN) >= 0
    ensures Indicators(rows).vlCoverage >= 0.0 && Indicators(rows).vlSuppression >= 0.0
    ensures Indicators(rows).vlEligible > 0 ==>
      (Indicators(rows).vlCoverage <= 100.0 <==> Total(rows, TxPvlsD) <= Total(rows, VlEligible))
    ensures Indicators(rows).vlSuppression <= 100.0 <==> Total(rows, TxPvlsN) <= Total(rows, TxPvlsD) || Total(rows, TxPvlsD) <= 0
  {
  }

  /** One group of a grouped sum: a key value and the column total over its rows. */
  datatype Group = Group(key: string, total: int)

  function GroupsFor(rows: seq<Row>, f: Field, c: Column, keys: seq<string>): (g: seq<Group>)
    ensures |g| == |keys|
    ensures forall i :: 0 <= i < |g| ==>
      g[i].key == keys[i] && g[i].total == Total(Select(rows, KeyIn(f, {keys[i]})), c)
  {
    if keys == [] then []
    else [Group(keys[0], Total(Select(rows, KeyIn(f, {keys[0]})), c))] + GroupsFor(rows, f, c, keys[1..])
  }

  /**
   * `rows.groupby(f)[c].sum()`: one group per distinct non-empty key (rows
   * with an empty key form no group), holding the column total over the rows
   * with that key.
   */
  function GroupTotals(rows: seq<Row>, f: Field, c: Column): (g: seq<Group>)
    ensures forall i, j :: 0 <= i < j < |g| ==> g[i].key != g[j].key
    ensures forall k :: (exists i :: 0 <= i < |g| && g[i].key == k) <==> (exists r :: r in rows && Key(r, f) == Some(k))
    ensures forall i :: 0 <= i < |g| ==> g[i].total == Total(Select(rows, KeyIn(f, {g[i].key})), c)
  {
    var keys := Options(rows, f);
    var g := GroupsFor(rows, f, c, keys);
    assert forall k :: (exists i :: 0 <= i < |g| && g[i].key == k) <==> k in keys;
    g
  }

  /** Grouping the same rows by the same key gives the same bars, in the same order, whatever column is summed. */
  lemma GroupKeysShared(rows: seq<Row>, f: Field, c1: Column, c2: Column)
    ensures |GroupTotals(rows, f, c1)| == |GroupTotals(rows, f, c2)|
    ensures forall i :: 0 <= i < |GroupTotals(rows, f, c1)| ==>
      GroupTotals(rows, f, c1)[i].key == GroupTotals(rows, f, c2)[i].key
  {
  }

  /** The sum of all group totals of a grouped sum. */
  function SumTotals(g: seq<Group>): (s: int)
  {
    if g == [] then 0 else g[0].total + SumTotals(g[1..])
  }

  function Elements(keys: seq<string>): (ks: set<string>)
  {
    set k | k in keys
  }

  lemma {:induction false} GroupsForSum(rows: seq<Row>, f: Field, c: Column, keys: seq<string>)
    requires Distinct(keys)
    ensures SumTotals(GroupsFor(rows, f, c, keys)) == Total(Select(rows, KeyIn(f, Elements(keys))), c)
  {
    if keys == [] {
      SelectCongruent(rows, KeyIn(f, {}), KeyIn(f, Elements(keys)));
    } else {
      var rest := keys[1..];
      GroupsForSum(rows, f, c, rest);
      assert Elements(keys) == {keys[0]} + Elements(rest);
      TotalKeyInUnion(rows, f, {keys[0]}, Elements(rest), c);
    }
  }

  /** The group totals of a grouped sum add up to the column total over the rows whose key is not empty. */
  lemma GroupTotalsSum(rows: seq<Row>, f: Field, c: Column)
    ensures SumTotals(GroupTotals(rows, f, c)) == Total(Select(rows, NotNull(f)), c)
  {
    var keys := Options(rows, f);
    GroupsForSum(rows, f, c, keys);
    SelectCongruent(rows, KeyIn(f, Elements(keys)), NotNull(f));
  }

  /** On loaded rows (no empty FacilityName) the TX_CURR-by-facility bars add up to the TX_CURR KPI. */
  lemma FacilityChartMatchesTxCurr(rows: seq<Row>)
    requires forall r :: r in rows ==> r.facilityName.Some?
    ensures SumTotals(GroupTotals(rows, FacilityName, TxCurr)) == Indicators(rows).txCurr
  {
    GroupTotalsSum(rows, FacilityName, TxCurr);
    SelectAll(rows, NotNull(FacilityName));
  }

  const PreviewRows := 100

  /** `head(100)`: the first rows, at most 100 of them. */
  function Preview(rows: seq<Row>): (p: seq<Row>)
    ensures |p| == if |rows| < PreviewRows then |rows| else PreviewRows
    ensures p <= rows
  {
    if |rows| <= PreviewRows then rows else rows[..PreviewRows]
  }
}
