/**
 * The part of a pandas DataFrame that the dashboard relies on: the rows of the
 * "Conc" sheet, the three key columns that may be empty (NaN), the nine count
 * columns, and row selection by a boolean mask (`df[mask]`), which keeps the
 * selected rows in their original order.
 */
module Frame {
  import opened Wrappers

  /** One row of the sheet. An empty key cell is `None`. */
  datatype Row = Row(
    state: Option<string>,
    lga: Option<string>,
    facilityName: Option<string>,
    txCurrEmr: int,          // TX_Curr_EMR
    txNewEmr: int,           // TX_New_EMR
    vlEligibleEmr: int,      // VL Eligible EMR
    txPvlsDEmr: int,         // TX_PVLS_D_EMR
    txPvlsNEmr: int,         // TX_PVLS_N_EMR
    pbsEmr: int,             // PBS_EMR
    pbsRecapturedEmr: int,   // PBS Recaptured_EMR
    iitQuarter: int,         // IIT Quarter
    pbsNdr: int)             // PBS_NDR

  /** The key columns the dashboard filters and groups on. */
  datatype Field = State | Lga | FacilityName

  function Key(r: Row, f: Field): (k: Option<string>)
  {
    match f
    case State => r.state
    case Lga => r.lga
    case FacilityName => r.facilityName
  }

  /** `Series.isin(sel)` for one cell: an empty cell is never a member. */
  predicate IsIn(k: Option<string>, sel: set<string>)
  {
    k.Some? && k.value in sel
  }

  /** One level of the sidebar filter: an empty selection lets every row through. */
  predicate Admits(r: Row, f: Field, sel: set<string>)
  {
    sel == {} || IsIn(Key(r, f), sel)
  }

  /** The row masks the dashboard builds. */
  datatype Test =
    | NotNull(f: Field)                   // df[f].notna()
    | KeyIn(f: Field, sel: set<string>)   // df[f].isin(sel)
    | Matches(states: set<string>, lgas: set<string>, facilities: set<string>)
                                          // one mask for the three successive narrowings

  predicate Holds(r: Row, t: Test)
  {
    match t
    case NotNull(f) => Key(r, f).Some?
    case KeyIn(f, sel) => IsIn(Key(r, f), sel)
    case Matches(states, lgas, facilities) =>
      Admits(r, State, states) && Admits(r, Lga, lgas) && Admits(r, FacilityName, facilities)
  }

  /** `xs` is obtained from `ys` by deleting rows, without reordering the rest. */
  ghost predicate IsSubsequence(xs: seq<Row>, ys: seq<Row>)
    decreases |ys|
  {
    if xs == [] then true
    else if ys == [] then false
    else (xs[0] == ys[0] && IsSubsequence(xs[1..], ys[1..])) || IsSubsequence(xs, ys[1..])
  }

  /**
   * `rows[mask]`: the rows that pass `t`, in their original order. Each passing
   * row is kept as often as it occurs, each failing row is dropped.
   */
  function Select(rows: seq<Row>, t: Test): (kept: seq<Row>)
    ensures IsSubsequence(kept, rows)
    ensures forall r :: r in kept <==> r in rows && Holds(r, t)
    ensures forall r :: multiset(kept)[r] == if Holds(r, t) then multiset(rows)[r] else 0
  {
    if rows == [] then []
    else
      assert rows == [rows[0]] + rows[1..];
      var rest := Select(rows[1..], t);
      if Holds(rows[0], t) then [rows[0]] + rest else rest
  }

  /** A mask every row passes selects the whole frame. */
  lemma {:induction false} SelectAll(rows: seq<Row>, t: Test)
    requires forall r :: r in rows ==> Holds(r, t)
    ensures Select(rows, t) == rows
  {
    if rows != [] {
      SelectAll(rows[1..], t);
    }
  }

  /** Two masks that agree on every row select the same rows. */
  lemma {:induction false} SelectCongruent(rows: seq<Row>, t1: Test, t2: Test)
    requires forall r :: r in rows ==> (Holds(r, t1) <==> Holds(r, t2))
    ensures Select(rows, t1) == Select(rows, t2)
  {
    if rows != [] {
      SelectCongruent(rows[1..], t1, t2);
    }
  }

  /** Narrowing by `t1` and then by `t2` is narrowing once by their conjunction `t`. */
  lemma {:induction false} SelectFuse(rows: seq<Row>, t1: Test, t2: Test, t: Test)
    requires forall r :: r in rows ==> (Holds(r, t) <==> Holds(r, t1) && Holds(r, t2))
    ensures Select(Select(rows, t1), t2) == Select(rows, t)
  {
    if rows != [] {
      SelectFuse(rows[1..], t1, t2, t);
    }
  }
}
