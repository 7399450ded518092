/**
 * The tables the dashboard keeps (pandas DataFrames), column by column, and
 * `_sum_df`: the sum of one column with missing or non-numeric cells read as 0.
 */
module Frames {
  import opened Wrappers

  /** One table cell: a number, a piece of text, or nothing (None/NaN). */
  datatype Cell = Number(value: real) | Text(text: string) | Blank

  /** `pd.to_numeric(cell, errors="coerce")` followed by `fillna(0)`. */
  function Coerce(c: Cell): real {
    if c.Number? then c.value else 0.0
  }

  datatype Column = Column(name: string, cells: seq<Cell>)

  /** A table: its number of rows and its columns, in order. */
  datatype Frame = Frame(height: nat, columns: seq<Column>)

  /** Every column holds one cell per row. */
  predicate WellFormed(f: Frame) {
    forall j :: 0 <= j < |f.columns| ==> |f.columns[j].cells| == f.height
  }

  /** `df.columns`. */
  function Names(f: Frame): seq<string> {
    seq(|f.columns|, j requires 0 <= j < |f.columns| => f.columns[j].name)
  }

  /** `df.empty`: no rows or no columns. */
  predicate IsEmpty(f: Frame) {
    f.height == 0 || |f.columns| == 0
  }

  /** Position of the first column called `name`. */
  function FindIndex(cols: seq<Column>, name: string): (j: nat)
    requires exists k :: 0 <= k < |cols| && cols[k].name == name
    ensures j < |cols| && cols[j].name == name
    ensures forall k :: 0 <= k < j ==> cols[k].name != name
  {
    if cols[0].name == name then 0 else 1 + FindIndex(cols[1..], name)
  }

  /** `df[name]` for a name in `df.columns`. */
  function Lookup(f: Frame, name: string): (c: Column)
    requires name in Names(f)
    ensures c.name == name && c in f.columns
    ensures WellFormed(f) ==> |c.cells| == f.height
  {
    assert exists k :: 0 <= k < |f.columns| && f.columns[k].name == name by {
      var k :| 0 <= k < |Names(f)| && Names(f)[k] == name;
    }
    f.columns[FindIndex(f.columns, name)]
  }

  /** Sum of the cells, each read through `Coerce`. */
  function Total(cells: seq<Cell>): real {
    if |cells| == 0 then 0.0 else Total(cells[..|cells| - 1]) + Coerce(cells[|cells| - 1])
  }

  /** `_sum_df(df, col)`; `None` stands for a missing table. */
  function SumDf(df: Option<Frame>, col: string): real {
    if df.None? || IsEmpty(df.value) || col !in Names(df.value) then 0.0
    else Total(Lookup(df.value, col).cells)
  }

  // ---------------------------------------------------------------------------
  // Lemmas

  /** Looking a name up in a table with one more column at the end. */
  lemma LookupAppend(h: nat, cols: seq<Column>, x: Column, name: string)
    requires name in Names(Frame(h, cols)) || x.name == name
    ensures name in Names(Frame(h, cols + [x]))
    ensures Lookup(Frame(h, cols + [x]), name)
            == if name in Names(Frame(h, cols)) then Lookup(Frame(h, cols), name) else x
  {
    var big := cols + [x];
    assert Names(Frame(h, big)) == Names(Frame(h, cols)) + [x.name];
    if name in Names(Frame(h, cols)) {
      var k :| 0 <= k < |cols| && Names(Frame(h, cols))[k] == name;
      assert big[k].name == name;
      var j2 := FindIndex(big, name);
      var j1 := FindIndex(cols, name);
      assert big[j1] == cols[j1];
      assert j1 == j2;
    } else {
      forall k | 0 <= k < |cols| ensures cols[k].name != name {
        assert Names(Frame(h, cols))[k] == cols[k].name;
      }
      assert big[|cols|].name == name;
      var j2 := FindIndex(big, name);
      assert j2 == |cols|;
    }
  }

  /** Looking a name up in a table with one more column at the front. */
  lemma LookupCons(h: nat, x: Column, cols: seq<Column>, name: string)
    requires x.name == name || name in Names(Frame(h, cols))
    ensures name in Names(Frame(h, [x] + cols))
    ensures Lookup(Frame(h, [x] + cols), name)
            == if x.name == name then x else Lookup(Frame(h, cols), name)
  {
    var big := [x] + cols;
    assert Names(Frame(h, big)) == [x.name] + Names(Frame(h, cols));
    assert big[1..] == cols;
    if x.name != name {
      var k :| 0 <= k < |cols| && Names(Frame(h, cols))[k] == name;
      assert cols[k].name == name;
      assert FindIndex(big, name) == 1 + FindIndex(cols, name);
    }
  }

  /** `LookupCons` for a table split into its first column and the rest. */
  lemma LookupTail(h: nat, cols: seq<Column>, name: string)
    requires |cols| > 0 && (cols[0].name == name || name in Names(Frame(h, cols[1..])))
    ensures name in Names(Frame(h, cols))
    ensures Lookup(Frame(h, cols), name)
            == if cols[0].name == name then cols[0] else Lookup(Frame(h, cols[1..]), name)
  {
    assert cols == [cols[0]] + cols[1..];
    LookupCons(h, cols[0], cols[1..], name);
  }

  /** Cells that all read as 0 sum to 0. */
  lemma {:induction false} TotalOfZeros(a: seq<Cell>)
    requires forall i :: 0 <= i < |a| ==> Coerce(a[i]) == 0.0
    ensures Total(a) == 0.0
    decreases |a|
  {
    if |a| > 0 {
      TotalOfZeros(a[..|a| - 1]);
    }
  }

  lemma {:induction false} TotalAppend(a: seq<Cell>, b: seq<Cell>)
    ensures Total(a + b) == Total(a) + Total(b)
    decreases |b|
  {
    if |b| == 0 {
      assert a + b == a;
    } else {
      assert (a + b)[..|a + b| - 1] == a + b[..|b| - 1];
      TotalAppend(a, b[..|b| - 1]);
    }
  }

  /** Two columns whose cells coerce to the same numbers have the same total. */
  lemma {:induction false} TotalRespectsCoerce(a: seq<Cell>, b: seq<Cell>)
    requires |a| == |b|
    requires forall i :: 0 <= i < |a| ==> Coerce(a[i]) == Coerce(b[i])
    ensures Total(a) == Total(b)
    decreases |a|
  {
    if |a| > 0 {
      TotalRespectsCoerce(a[..|a| - 1], b[..|b| - 1]);
    }
  }

  /** A column of non-negative amounts (missing cells included) sums to a non-negative total. */
  lemma {:induction false} TotalNonNegative(a: seq<Cell>)
    requires forall i :: 0 <= i < |a| ==> Coerce(a[i]) >= 0.0
    ensures Total(a) >= 0.0
    decreases |a|
  {
    if |a| > 0 {
      TotalNonNegative(a[..|a| - 1]);
    }
  }

  /** In a well-formed table, `_sum_df` of a present column is the total of its cells. */
  lemma ColumnSum(f: Frame, c: string)
    requires WellFormed(f) && c in Names(f)
    ensures SumDf(Some(f), c) == Total(Lookup(f, c).cells)
  {
    if f.height == 0 {
      assert Lookup(f, c).cells == [];
    }
  }

  /** A column of two stacked tables holds the first table's cells, then the second's. */
  lemma StackLookup(f: Frame, g: Frame, col: string)
    requires WellFormed(f) && WellFormed(g)
    requires Names(f) == Names(g) && col in Names(f)
    ensures col in Names(g) && col in Names(Stack(f, g))
    ensures Lookup(Stack(f, g), col).cells == Lookup(f, col).cells + Lookup(g, col).cells
  {
    var s := Stack(f, g);
    assert Names(s) == Names(f);
    var jf := FindIndex(f.columns, col);
    var jg := FindIndex(g.columns, col);
    var js := FindIndex(s.columns, col);
    assert |f.columns| == |Names(f)| == |Names(g)| == |g.columns| == |s.columns|;
    forall k | 0 <= k < |f.columns|
      ensures f.columns[k].name == g.columns[k].name == s.columns[k].name
    {
      assert Names(f)[k] == Names(g)[k];
    }
    assert jf == jg == js;
  }

  /** Rows added to a table add their column total: the sum does not depend on where rows are cut. */
  lemma SumDfSplit(f: Frame, g: Frame, col: string)
    requires WellFormed(f) && WellFormed(g)
    requires Names(f) == Names(g) && col in Names(f)
    ensures col in Names(Stack(f, g))
    ensures SumDf(Some(Stack(f, g)), col) == SumDf(Some(f), col) + SumDf(Some(g), col)
  {
    StackLookup(f, g, col);
    ColumnSum(Stack(f, g), col);
    ColumnSum(f, col);
    ColumnSum(g, col);
    TotalAppend(Lookup(f, col).cells, Lookup(g, col).cells);
  }

  /** `pd.concat([f, g])` for two tables with the same columns. */
  function Stack(f: Frame, g: Frame): (s: Frame)
    requires WellFormed(f) && WellFormed(g) && Names(f) == Names(g)
    ensures WellFormed(s) && s.height == f.height + g.height
  {
    Frame(f.height + g.height,
          seq(|f.columns|, j requires 0 <= j < |f.columns| =>
            Column(f.columns[j].name, f.columns[j].cells + g.columns[j].cells)))
  }
}
