/**
 * Load-time cleaning and the cascading sidebar options: the State list, the
 * LGA list narrowed by the chosen States, and the Facility list narrowed by
 * the chosen LGAs.
 */
module Cascade {
  import opened Wrappers
  import opened Frame

  /** The sheet as the dashboard keeps it: rows without a FacilityName are dropped. */
  function Load(raw: seq<Row>): (df: seq<Row>)
    ensures forall r :: r in df ==> r.facilityName.Some?
    ensures forall r :: r in raw && r.facilityName.Some? ==> r in df
    ensures IsSubsequence(df, raw)
    ensures forall r :: multiset(df)[r] == if r.facilityName.Some? then multiset(raw)[r] else 0
  {
    Select(raw, NotNull(FacilityName))
  }

  ghost predicate Distinct(s: seq<string>)
  {
    forall i, j :: 0 <= i < j < |s| ==> s[i] != s[j]
  }

  /** The values of a key column over rows that all have one, row by row. */
  function Values(rows: seq<Row>, f: Field): (ks: seq<string>)
    requires forall r :: r in rows ==> Key(r, f).Some?
    ensures |ks| == |rows|
    ensures forall i :: 0 <= i < |rows| ==> Key(rows[i], f) == Some(ks[i])
  {
    if rows == [] then [] else [Key(rows[0], f).value] + Values(rows[1..], f)
  }

  /**
   * `df[f].dropna()`: the non-empty cells of one key column, one per row that
   * has one, in row order (repeats included).
   */
  function NonNullKeys(rows: seq<Row>, f: Field): (ks: seq<string>)
    ensures |ks| == |Select(rows, NotNull(f))|
    ensures forall i :: 0 <= i < |ks| ==> Key(Select(rows, NotNull(f))[i], f) == Some(ks[i])
    ensures forall x :: x in ks <==> exists r :: r in rows && Key(r, f) == Some(x)
  {
    var kept := Select(rows, NotNull(f));
    var ks := Values(kept, f);
    assert forall x :: x in ks ==> exists r :: r in rows && Key(r, f) == Some(x) by {
      forall x | x in ks ensures exists r :: r in rows && Key(r, f) == Some(x) {
        var i :| 0 <= i < |ks| && ks[i] == x;
        assert kept[i] in kept;
      }
    }
    assert forall x :: (exists r :: r in rows && Key(r, f) == Some(x)) ==> x in ks by {
      forall x | exists r :: r in rows && Key(r, f) == Some(x) ensures x in ks {
        var r :| r in rows && Key(r, f) == Some(x);
        var i :| 0 <= i < |kept| && kept[i] == r;
        assert ks[i] == x;
      }
    }
    ks
  }

  /** The position of the first occurrence of `x` in `xs`. */
  function FirstIndex(xs: seq<string>, x: string): (i: nat)
    requires x in xs
    ensures i < |xs| && xs[i] == x && x !in xs[..i]
  {
    if xs[0] == x then 0
    else
      assert xs == [xs[0]] + xs[1..];
      var j := FirstIndex(xs[1..], x);
      assert xs[..j + 1] == [xs[0]] + xs[1..][..j];
      j + 1
  }

  /** Appending to a sequence does not move the first occurrence of a value already in it. */
  lemma FirstIndexExtend(xs: seq<string>, y: string, x: string)
    requires x in xs
    ensures FirstIndex(xs + [y], x) == FirstIndex(xs, x)
  {
    if xs[0] != x {
      assert (xs + [y])[1..] == xs[1..] + [y];
      FirstIndexExtend(xs[1..], y, x);
    }
  }

  /**
   * `Series.unique()`: each value once, in order of first appearance: a value
   * comes before another exactly when it first occurs earlier.
   */
  function Unique(xs: seq<string>): (u: seq<string>)
    ensures Distinct(u)
    ensures forall x :: x in u <==> x in xs
    ensures |u| <= |xs|
    ensures forall i, j :: 0 <= i < j < |u| ==> FirstIndex(xs, u[i]) < FirstIndex(xs, u[j])
  {
    if xs == [] then []
    else
      var init, last := xs[..|xs| - 1], xs[|xs| - 1];
      assert xs == init + [last];
      var u := Unique(init);
      forall x | x in init ensures FirstIndex(xs, x) == FirstIndex(init, x) {
        FirstIndexExtend(init, last, x);
      }
      if last in u then u
      else
        assert FirstIndex(xs, last) == |xs| - 1;
        u + [last]
  }

  /** `df[f].dropna().unique()`: the options one multiselect offers. */
  function Options(rows: seq<Row>, f: Field): (opts: seq<string>)
    ensures Distinct(opts)
    ensures forall x :: x in opts <==> exists r :: r in rows && Key(r, f) == Some(x)
    ensures forall i, j :: 0 <= i < j < |opts| ==>
      FirstIndex(NonNullKeys(rows, f), opts[i]) < FirstIndex(NonNullKeys(rows, f), opts[j])
  {
    Unique(NonNullKeys(rows, f))
  }

  /** The State multiselect lists every State that occurs, once each. */
  function StateOptions(df: seq<Row>): (opts: seq<string>)
    ensures Distinct(opts)
    ensures forall x :: x in opts <==> exists r :: r in df && r.state == Some(x)
  {
    Options(df, State)
  }

  /** `df_lga`: the rows in the chosen States, or every row when none is chosen. */
  function LgaStage(df: seq<Row>, states: set<string>): (rows: seq<Row>)
    ensures rows == Select(df, Matches(states, {}, {}))
  {
    if states != {} then
      SelectCongruent(df, KeyIn(State, states), Matches(states, {}, {}));
      Select(df, KeyIn(State, states))
    else
      SelectAll(df, Matches(states, {}, {}));
      df
  }

  /** The LGA multiselect: the LGAs that occur in the chosen States (in all rows when none is chosen). */
  function LgaOptions(df: seq<Row>, states: set<string>): (opts: seq<string>)
    ensures Distinct(opts)
    ensures forall x :: x in opts <==>
      exists r :: r in df && Admits(r, State, states) && r.lga == Some(x)
  {
    Options(LgaStage(df, states), Lga)
  }

  /** `df_fac`: the rows of `df_lga` in the chosen LGAs, or all of `df_lga` when none is chosen. */
  function FacilityStage(df: seq<Row>, states: set<string>, lgas: set<string>): (rows: seq<Row>)
    ensures rows == Select(df, Matches(states, lgas, {}))
  {
    var lgaRows := LgaStage(df, states);
    if lgas != {} then
      SelectFuse(df, Matches(states, {}, {}), KeyIn(Lga, lgas), Matches(states, lgas, {}));
      Select(lgaRows, KeyIn(Lga, lgas))
    else
      lgaRows
  }

  /** The Facility multiselect: the facilities that pass both the State and the LGA choice. */
  function FacilityOptions(df: seq<Row>, states: set<string>, lgas: set<string>): (opts: seq<string>)
    ensures Distinct(opts)
    ensures forall x :: x in opts <==>
      exists r :: r in df && Admits(r, State, states) && Admits(r, Lga, lgas) && r.facilityName == Some(x)
  {
    Options(FacilityStage(df, states, lgas), FacilityName)
  }

  /** Choosing States or LGAs only ever removes options further down the cascade. */
  lemma CascadeNarrows(df: seq<Row>, states: set<string>, lgas: set<string>)
    ensures forall x :: x in LgaOptions(df, states) ==> x in LgaOptions(df, {})
    ensures forall x :: x in FacilityOptions(df, states, lgas) ==> x in FacilityOptions(df, states, {})
    ensures forall x :: x in FacilityOptions(df, states, {}) ==> x in FacilityOptions(df, {}, {})
    ensures forall x :: x in FacilityOptions(df, {}, {}) <==> exists r :: r in df && r.facilityName == Some(x)
  {
  }
}
