/**
 * `_sanitize_editor_df`: brings a table edited in the data editor back to
 * the exact schema the dashboard expects. Helper id/index columns are
 * dropped, missing columns are added ("" for text, 0.0 for numbers), the
 * expected columns are selected in order, and every numeric column is
 * coerced with non-numeric or missing cells set to 0.0.
 */
module Sanitize {
  import opened Wrappers
  import opened Text
  import opened Frames

  /** Names of the helper columns the editor can introduce. */
  const HelperNames: set<string> := {"id", "_id", "__id", "row_id", "_row_id", "index", "__index__"}

  /** `str(c).strip().lower() in drop_candidates`. */
  predicate IsHelperColumn(name: string) {
    Lower(Strip(name)) in HelperNames
  }

  /** `df.drop(columns=extra)`: the columns that are not helper columns, in order. */
  function DropHelpers(cols: seq<Column>): (r: seq<Column>)
    ensures forall c :: c in r <==> c in cols && !IsHelperColumn(c.name)
  {
    if |cols| == 0 then []
    else (if IsHelperColumn(cols[0].name) then [] else [cols[0]]) + DropHelpers(cols[1..])
  }

  /** The cell a newly added column is filled with. */
  function Default(c: string, numeric: seq<string>): Cell {
    if c in numeric then Number(0.0) else Text("")
  }

  /** The table handed in; a missing one becomes `pd.DataFrame(columns=expected_cols)`. */
  function Input(df: Option<Frame>, expected: seq<string>): Frame {
    if df.Some? then df.value
    else Frame(0, seq(|expected|, j requires 0 <= j < |expected| => Column(expected[j], [])))
  }

  /** The input once its helper columns are dropped. */
  function Kept(df: Option<Frame>, expected: seq<string>): Frame {
    var f := Input(df, expected);
    Frame(f.height, DropHelpers(f.columns))
  }

  /** The cells of column `c` once the missing columns have been added. */
  function BaseCells(kept: Frame, c: string, numeric: seq<string>): seq<Cell> {
    if c in Names(kept) then Lookup(kept, c).cells
    else seq(kept.height, _ => Default(c, numeric))
  }

  /** `pd.to_numeric(col, errors="coerce").fillna(0.0)`. */
  function Filled(cells: seq<Cell>): seq<Cell> {
    seq(|cells|, i requires 0 <= i < |cells| => Number(Coerce(cells[i])))
  }

  function ColumnAfter(kept: Frame, c: string, numeric: seq<string>): Column {
    Column(c, if c in numeric then Filled(BaseCells(kept, c, numeric)) else BaseCells(kept, c, numeric))
  }

  /** The table `_sanitize_editor_df` returns. */
  function Sanitized(df: Option<Frame>, expected: seq<string>, numeric: seq<string>): Frame {
    var kept := Kept(df, expected);
    Frame(kept.height, seq(|expected|, j requires 0 <= j < |expected| => ColumnAfter(kept, expected[j], numeric)))
  }

  /** `df[c] = pd.to_numeric(df[c], errors="coerce").fillna(0.0)`. */
  function CoerceColumn(f: Frame, c: string): Frame {
    Frame(f.height, seq(|f.columns|, k requires 0 <= k < |f.columns| =>
      if f.columns[k].name == c then Column(c, Filled(f.columns[k].cells)) else f.columns[k]))
  }

  /** `if c not in df.columns: df[c] = "" if c not in numeric_cols else 0.0`. */
  function AddIfMissing(f: Frame, c: string, numeric: seq<string>): Frame {
    if c in Names(f) then f
    else Frame(f.height, f.columns + [Column(c, seq(f.height, _ => Default(c, numeric)))])
  }

  /** State after the first `j` expected columns were added where missing. */
  predicate AddedUpTo(f: Frame, kept: Frame, expected: seq<string>, numeric: seq<string>, j: nat)
    requires j <= |expected|
  {
    f.height == kept.height && WellFormed(f)
    && (forall c :: c in Names(kept) ==> c in Names(f) && Lookup(f, c) == Lookup(kept, c))
    && (forall c :: c in Names(f) ==> c in Names(kept) || c in expected[..j])
    && (forall k :: 0 <= k < j ==>
          expected[k] in Names(f) && Lookup(f, expected[k]).cells == BaseCells(kept, expected[k], numeric))
  }

  /** State after the numeric columns `numeric[..i]` were coerced. */
  predicate CoercedUpTo(g: Frame, kept: Frame, expected: seq<string>, numeric: seq<string>, i: nat)
    requires i <= |numeric|
  {
    g.height == kept.height && |g.columns| == |expected|
    && forall k :: 0 <= k < |expected| ==>
         g.columns[k] == Column(expected[k],
           if expected[k] in numeric[..i] then Filled(BaseCells(kept, expected[k], numeric))
           else BaseCells(kept, expected[k], numeric))
  }

  /** The column-by-column updates of `_sanitize_editor_df`. */
  method SanitizeEditorFrame(df: Option<Frame>, expected: seq<string>, numeric: seq<string>)
    returns (out: Frame)
    requires df.Some? ==> WellFormed(df.value)
    requires forall c :: c in numeric ==> c in expected
    ensures out == Sanitized(df, expected, numeric)
  {
    var f := Input(df, expected);
    f := Frame(f.height, DropHelpers(f.columns));
    ghost var kept := f;
    KeptWellFormed(df, expected);
    for j := 0 to |expected|
      invariant AddedUpTo(f, kept, expected, numeric, j)
    {
      var c := expected[j];
      AddStep(f, kept, expected, numeric, j);
      if c !in Names(f) {
        f := Frame(f.height, f.columns + [Column(c, seq(f.height, _ => Default(c, numeric)))]);
      }
    }
    SelectStep(f, kept, expected, numeric);
    var g := Select(f, expected);
    for i := 0 to |numeric|
      invariant CoercedUpTo(g, kept, expected, numeric, i)
    {
      CoerceStep(g, kept, expected, numeric, i);
      g := CoerceColumn(g, numeric[i]);
    }
    FinalStep(df, g, expected, numeric);
    out := g;
  }

  /** `df[expected_cols]`. */
  function Select(f: Frame, expected: seq<string>): Frame
    requires forall k :: 0 <= k < |expected| ==> expected[k] in Names(f)
  {
    Frame(f.height, seq(|expected|, k requires 0 <= k < |expected| => Lookup(f, expected[k])))
  }

  lemma SelectStep(f: Frame, kept: Frame, expected: seq<string>, numeric: seq<string>)
    requires AddedUpTo(f, kept, expected, numeric, |expected|)
    ensures forall k :: 0 <= k < |expected| ==> expected[k] in Names(f)
    ensures CoercedUpTo(Select(f, expected), kept, expected, numeric, 0)
  {
  }

  lemma FinalStep(df: Option<Frame>, g: Frame, expected: seq<string>, numeric: seq<string>)
    requires CoercedUpTo(g, Kept(df, expected), expected, numeric, |numeric|)
    ensures g == Sanitized(df, expected, numeric)
  {
    assert numeric[..|numeric|] == numeric;
  }

  lemma KeptWellFormed(df: Option<Frame>, expected: seq<string>)
    requires df.Some? ==> WellFormed(df.value)
    ensures WellFormed(Kept(df, expected))
  {
    var f := Input(df, expected);
    forall j | 0 <= j < |Kept(df, expected).columns| ensures |Kept(df, expected).columns[j].cells| == f.height {
      assert Kept(df, expected).columns[j] in f.columns;
    }
  }

  lemma AddStep(f: Frame, kept: Frame, expected: seq<string>, numeric: seq<string>, j: nat)
    requires j < |expected| && AddedUpTo(f, kept, expected, numeric, j)
    ensures AddedUpTo(AddIfMissing(f, expected[j], numeric), kept, expected, numeric, j + 1)
  {
    var c := expected[j];
    var f' := AddIfMissing(f, c, numeric);
    assert expected[..j + 1] == expected[..j] + [c];
    if c !in Names(f) {
      var added := Column(c, seq(f.height, _ => Default(c, numeric)));
      assert f' == Frame(f.height, f.columns + [added]);
      forall d | d in Names(f) ensures d in Names(f') && Lookup(f', d) == Lookup(f, d) {
        LookupAppend(f.height, f.columns, added, d);
      }
      LookupAppend(f.height, f.columns, added, c);
      assert Names(f') == Names(f) + [c];
    } else if c !in Names(kept) {
      var k :| 0 <= k < j && expected[k] == c;
    }
  }

  lemma CoerceStep(g: Frame, kept: Frame, expected: seq<string>, numeric: seq<string>, i: nat)
    requires i < |numeric| && CoercedUpTo(g, kept, expected, numeric, i)
    ensures CoercedUpTo(CoerceColumn(g, numeric[i]), kept, expected, numeric, i + 1)
  {
    assert numeric[..i + 1] == numeric[..i] + [numeric[i]];
    forall k | 0 <= k < |expected|
      ensures Filled(Filled(BaseCells(kept, expected[k], numeric))) == Filled(BaseCells(kept, expected[k], numeric))
    {
      FilledIdempotent(BaseCells(kept, expected[k], numeric));
    }
  }

  // ---------------------------------------------------------------------------
  // Lemmas

  lemma FilledIdempotent(cells: seq<Cell>)
    ensures Filled(Filled(cells)) == Filled(cells)
  {
  }

  lemma DropHelpersNames(h: nat, cols: seq<Column>, c: string)
    ensures c in Names(Frame(h, DropHelpers(cols))) <==> c in Names(Frame(h, cols)) && !IsHelperColumn(c)
  {
    var r := DropHelpers(cols);
    if c in Names(Frame(h, r)) {
      var k :| 0 <= k < |r| && Names(Frame(h, r))[k] == c;
      assert r[k] in cols;
      var m :| 0 <= m < |cols| && cols[m] == r[k];
      assert Names(Frame(h, cols))[m] == c;
    }
    if c in Names(Frame(h, cols)) && !IsHelperColumn(c) {
      var m :| 0 <= m < |cols| && Names(Frame(h, cols))[m] == c;
      assert cols[m] in r;
      var k :| 0 <= k < |r| && r[k] == cols[m];
      assert Names(Frame(h, r))[k] == c;
    }
  }

  /** A name other than the first column's is found among the remaining columns. */
  lemma NameInTail(h: nat, cols: seq<Column>, c: string)
    requires |cols| > 0 && c in Names(Frame(h, cols)) && cols[0].name != c
    ensures c in Names(Frame(h, cols[1..]))
  {
    var m :| 0 <= m < |cols| && Names(Frame(h, cols))[m] == c;
    assert Names(Frame(h, cols[1..]))[m - 1] == c;
  }

  lemma {:induction false} DropHelpersLookup(h: nat, cols: seq<Column>, c: string)
    requires c in Names(Frame(h, cols)) && !IsHelperColumn(c)
    ensures c in Names(Frame(h, DropHelpers(cols)))
    ensures Lookup(Frame(h, DropHelpers(cols)), c) == Lookup(Frame(h, cols), c)
    decreases |cols|, 1
  {
    if cols[0].name == c {
      DropHelpersHead(h, cols, c);
    } else {
      DropHelpersSkip(h, cols, c);
    }
  }

  /** `DropHelpersLookup` when the first column is the one looked up. */
  lemma DropHelpersHead(h: nat, cols: seq<Column>, c: string)
    requires |cols| > 0 && cols[0].name == c && c in Names(Frame(h, cols)) && !IsHelperColumn(c)
    ensures |DropHelpers(cols)| > 0 && DropHelpers(cols)[0] == cols[0]
    ensures c in Names(Frame(h, DropHelpers(cols)))
    ensures Lookup(Frame(h, DropHelpers(cols)), c) == Lookup(Frame(h, cols), c)
  {
    var rest := DropHelpers(cols[1..]);
    LookupTail(h, cols, c);
    assert DropHelpers(cols) == [cols[0]] + rest;
    LookupCons(h, cols[0], rest, c);
  }

  /** `DropHelpersLookup` when the column looked up comes later. */
  lemma {:induction false} DropHelpersSkip(h: nat, cols: seq<Column>, c: string)
    requires |cols| > 0 && c in Names(Frame(h, cols)) && cols[0].name != c && !IsHelperColumn(c)
    ensures c in Names(Frame(h, DropHelpers(cols)))
    ensures Lookup(Frame(h, DropHelpers(cols)), c) == Lookup(Frame(h, cols), c)
    decreases |cols|, 0
  {
    var tail := cols[1..];
    var rest := DropHelpers(tail);
    NameInTail(h, cols, c);
    LookupTail(h, cols, c);
    DropHelpersLookup(h, tail, c);
    if !IsHelperColumn(cols[0].name) {
      assert DropHelpers(cols) == [cols[0]] + rest;
      LookupCons(h, cols[0], rest, c);
    } else {
      assert DropHelpers(cols) == rest;
    }
  }

  lemma {:induction false} DropHelpersNone(cols: seq<Column>)
    requires forall k :: 0 <= k < |cols| ==> !IsHelperColumn(cols[k].name)
    ensures DropHelpers(cols) == cols
    decreases |cols|
  {
    if |cols| > 0 {
      DropHelpersNone(cols[1..]);
    }
  }

  /** Column `expected[j]` of the result, looked up by name, is the one computed for that name. */
  lemma SanitizedLookup(df: Option<Frame>, expected: seq<string>, numeric: seq<string>, j: nat)
    requires j < |expected|
    ensures expected[j] in Names(Sanitized(df, expected, numeric))
    ensures Lookup(Sanitized(df, expected, numeric), expected[j])
            == ColumnAfter(Kept(df, expected), expected[j], numeric)
  {
    var out := Sanitized(df, expected, numeric);
    assert Names(out)[j] == expected[j];
    var k := FindIndex(out.columns, expected[j]);
    assert out.columns[k].name == expected[k];
  }

  /** The result has exactly the expected columns, in order, and one cell per input row in each. */
  lemma SanitizedSchema(df: Option<Frame>, expected: seq<string>, numeric: seq<string>)
    requires df.Some? ==> WellFormed(df.value)
    ensures var out := Sanitized(df, expected, numeric);
      WellFormed(out) && Names(out) == expected
      && out.height == (if df.Some? then df.value.height else 0)
  {
    KeptWellFormed(df, expected);
  }

  /** A numeric column of the result holds numbers only. */
  lemma SanitizedNumericFilled(df: Option<Frame>, expected: seq<string>, numeric: seq<string>, c: string)
    requires c in numeric && c in expected
    ensures c in Names(Sanitized(df, expected, numeric))
    ensures forall i :: 0 <= i < |Lookup(Sanitized(df, expected, numeric), c).cells| ==>
      Lookup(Sanitized(df, expected, numeric), c).cells[i].Number?
  {
    var j :| 0 <= j < |expected| && expected[j] == c;
    SanitizedLookup(df, expected, numeric, j);
  }

  /**
   * What a result column holds: the input's cells (coerced to numbers when the
   * column is numeric) if the input has the column under a non-helper name,
   * otherwise "" or 0.0 in every row.
   */
  lemma SanitizedCells(df: Option<Frame>, expected: seq<string>, numeric: seq<string>, c: string)
    requires df.Some? ==> WellFormed(df.value)
    requires c in expected
    ensures c in Names(Sanitized(df, expected, numeric))
    ensures var input := Input(df, expected);
      var cells := Lookup(Sanitized(df, expected, numeric), c).cells;
      if c in Names(input) && !IsHelperColumn(c) then
        cells == (if c in numeric then Filled(Lookup(input, c).cells) else Lookup(input, c).cells)
      else
        cells == seq(input.height, _ => Default(c, numeric))
  {
    var j :| 0 <= j < |expected| && expected[j] == c;
    SanitizedLookup(df, expected, numeric, j);
    var input := Input(df, expected);
    var kept := Kept(df, expected);
    assert kept == Frame(input.height, DropHelpers(input.columns));
    DropHelpersNames(input.height, input.columns, c);
    if c in Names(input) && !IsHelperColumn(c) {
      DropHelpersLookup(input.height, input.columns, c);
      assert BaseCells(kept, c, numeric) == Lookup(input, c).cells;
    } else {
      assert BaseCells(kept, c, numeric) == seq(input.height, _ => Default(c, numeric));
      if c in numeric {
        FilledZeros(input.height, c, numeric);
      }
    }
  }

  /** Coercing a freshly added numeric column leaves its zeros as they are. */
  lemma FilledZeros(h: nat, c: string, numeric: seq<string>)
    requires c in numeric
    ensures Filled(seq(h, _ => Default(c, numeric))) == seq(h, _ => Default(c, numeric))
  {
  }

  /** Sanitizing a table that has already been sanitized changes nothing. */
  lemma SanitizedIdempotent(df: Option<Frame>, expected: seq<string>, numeric: seq<string>)
    requires df.Some? ==> WellFormed(df.value)
    requires forall c :: c in expected ==> !IsHelperColumn(c)
    ensures Sanitized(Some(Sanitized(df, expected, numeric)), expected, numeric) == Sanitized(df, expected, numeric)
  {
    var out := Sanitized(df, expected, numeric);
    var kept := Kept(df, expected);
    SanitizedSchema(df, expected, numeric);
    assert forall k :: 0 <= k < |out.columns| ==> out.columns[k].name == expected[k];
    DropHelpersNone(out.columns);
    assert Kept(Some(out), expected) == out;
    var again := Sanitized(Some(out), expected, numeric);
    forall j | 0 <= j < |expected| ensures again.columns[j] == out.columns[j] {
      SanitizedLookup(df, expected, numeric, j);
      assert Names(out)[j] == expected[j];
      var b := BaseCells(kept, expected[j], numeric);
      assert BaseCells(out, expected[j], numeric) == (if expected[j] in numeric then Filled(b) else b);
      FilledIdempotent(b);
    }
  }

  /** Sanitizing never changes the total of an expected, non-helper column. */
  lemma SanitizedKeepsSums(df: Option<Frame>, expected: seq<string>, numeric: seq<string>, c: string)
    requires df.Some? ==> WellFormed(df.value)
    requires c in expected && !IsHelperColumn(c)
    ensures SumDf(Some(Sanitized(df, expected, numeric)), c) == SumDf(df, c)
  {
    var out := Sanitized(df, expected, numeric);
    SanitizedSchema(df, expected, numeric);
    SanitizedCells(df, expected, numeric, c);
    var cells := Lookup(out, c).cells;
    ColumnSum(out, c);
    if df.Some? && c in Names(df.value) {
      var src := Lookup(df.value, c).cells;
      ColumnSum(df.value, c);
      if c in numeric {
        TotalRespectsCoerce(cells, src);
      } else {
        assert cells == src;
      }
    } else {
      assert SumDf(df, c) == 0.0;
      TotalOfZeros(cells);
    }
  }
}
