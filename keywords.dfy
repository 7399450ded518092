/**
 * `_sum_by_keywords`: the total of the amount column over the rows whose
 * normalized name contains at least one of the (lower-cased) keywords.
 */
module Keywords {
  import opened Wrappers
  import opened Text
  import opened Frames

  /** `str(cell or "")` for a name cell (a number renders as no text in this model). */
  function NameText(c: Cell): string {
    if c.Text? then c.text else ""
  }

  /** `[k.lower() for k in keywords]`. */
  function Lowered(keywords: seq<string>): seq<string> {
    seq(|keywords|, i requires 0 <= i < |keywords| => Lower(keywords[i]))
  }

  /** `any(k in name for k in keys)`. */
  predicate AnyKeyword(keys: seq<string>, name: string) {
    exists i :: 0 <= i < |keys| && IsSubstring(keys[i], name)
  }

  /** Whether row `i` is picked out by the keywords. */
  predicate RowMatches(names: seq<Cell>, keys: seq<string>, i: nat)
    requires i < |names|
  {
    AnyKeyword(keys, Norm(NameText(names[i])))
  }

  /** Total of the first `n` rows whose name matches. */
  function MatchedTotal(names: seq<Cell>, amounts: seq<Cell>, keys: seq<string>, n: nat): real
    requires n <= |names| && n <= |amounts|
  {
    if n == 0 then 0.0
    else MatchedTotal(names, amounts, keys, n - 1)
         + (if RowMatches(names, keys, n - 1) then Coerce(amounts[n - 1]) else 0.0)
  }

  /** The table exists, has rows and columns, and has both named columns. */
  predicate HasColumns(df: Option<Frame>, nameCol: string, amountCol: string) {
    df.Some? && !IsEmpty(df.value) && nameCol in Names(df.value) && amountCol in Names(df.value)
  }

  /** What `_sum_by_keywords` returns. */
  function KeywordTotal(df: Option<Frame>, nameCol: string, amountCol: string, keywords: seq<string>): real
    requires df.Some? ==> WellFormed(df.value)
  {
    if !HasColumns(df, nameCol, amountCol) then 0.0
    else MatchedTotal(Lookup(df.value, nameCol).cells, Lookup(df.value, amountCol).cells,
                      Lowered(keywords), df.value.height)
  }

  /** The loop of `_sum_by_keywords`. */
  method SumByKeywords(df: Option<Frame>, nameCol: string, amountCol: string, keywords: seq<string>)
    returns (total: real)
    requires df.Some? ==> WellFormed(df.value)
    ensures total == KeywordTotal(df, nameCol, amountCol, keywords)
  {
    if df.None? || IsEmpty(df.value) || nameCol !in Names(df.value) || amountCol !in Names(df.value) {
      return 0.0;
    }
    var f := df.value;
    var names := Lookup(f, nameCol).cells;
    var amounts := Lookup(f, amountCol).cells;
    total := SumMatched(names, amounts, Lowered(keywords));
  }

  /** The row loop of `_sum_by_keywords` over its name and amount columns. */
  method SumMatched(names: seq<Cell>, amounts: seq<Cell>, keys: seq<string>) returns (total: real)
    requires |names| == |amounts|
    ensures total == MatchedTotal(names, amounts, keys, |names|)
  {
    total := 0.0;
    for i := 0 to |names|
      invariant total == MatchedTotal(names, amounts, keys, i)
    {
      var name := Norm(NameText(names[i]));
      var amt := Coerce(amounts[i]);
      MatchedTotalStep(names, amounts, keys, i);
      if AnyKeyword(keys, name) {
        total := total + amt;
      }
    }
  }

  // ---------------------------------------------------------------------------
  // Lemmas

  lemma MatchedTotalStep(names: seq<Cell>, amounts: seq<Cell>, keys: seq<string>, i: nat)
    requires i < |names| && i < |amounts|
    ensures MatchedTotal(names, amounts, keys, i + 1) == MatchedTotal(names, amounts, keys, i)
      + (if AnyKeyword(keys, Norm(NameText(names[i]))) then Coerce(amounts[i]) else 0.0)
  {
    assert RowMatches(names, keys, i) == AnyKeyword(keys, Norm(NameText(names[i])));
  }

  /** A name is matched exactly when some keyword, lower-cased, occurs in it. */
  lemma KeywordMatchIff(keywords: seq<string>, name: string)
    ensures AnyKeyword(Lowered(keywords), name)
            <==> exists i: nat, p: nat :: i < |keywords| && OccursAt(Lower(keywords[i]), name, p)
  {
    if AnyKeyword(Lowered(keywords), name) {
      var i :| 0 <= i < |keywords| && IsSubstring(Lowered(keywords)[i], name);
      IsSubstringIff(Lower(keywords[i]), name);
      var p: nat :| OccursAt(Lower(keywords[i]), name, p);
    }
    if exists i: nat, p: nat :: i < |keywords| && OccursAt(Lower(keywords[i]), name, p) {
      var i: nat, p: nat :| i < |keywords| && OccursAt(Lower(keywords[i]), name, p);
      IsSubstringIff(Lower(keywords[i]), name);
      assert IsSubstring(Lowered(keywords)[i], name);
    }
  }

  lemma {:induction false} MatchedTotalSameKeys(names: seq<Cell>, amounts: seq<Cell>, a: seq<string>, b: seq<string>, n: nat)
    requires n <= |names| && n <= |amounts|
    requires forall k :: k in a <==> k in b
    ensures MatchedTotal(names, amounts, a, n) == MatchedTotal(names, amounts, b, n)
  {
    if n > 0 {
      MatchedTotalSameKeys(names, amounts, a, b, n - 1);
      var name := Norm(NameText(names[n - 1]));
      if AnyKeyword(a, name) {
        var i :| 0 <= i < |a| && IsSubstring(a[i], name);
        assert a[i] in b;
      }
      if AnyKeyword(b, name) {
        var i :| 0 <= i < |b| && IsSubstring(b[i], name);
        assert b[i] in a;
      }
    }
  }

  /**
   * Only the set of lower-cased keywords matters: a row matched by several
   * keywords, or by a keyword listed twice, is still added once.
   */
  lemma KeywordTotalDependsOnKeywordSet(df: Option<Frame>, nameCol: string, amountCol: string,
                                        a: seq<string>, b: seq<string>)
    requires df.Some? ==> WellFormed(df.value)
    requires forall k :: k in Lowered(a) <==> k in Lowered(b)
    ensures KeywordTotal(df, nameCol, amountCol, a) == KeywordTotal(df, nameCol, amountCol, b)
  {
    if HasColumns(df, nameCol, amountCol) {
      MatchedTotalSameKeys(Lookup(df.value, nameCol).cells, Lookup(df.value, amountCol).cells,
                           Lowered(a), Lowered(b), df.value.height);
    }
  }

  /** Listing every keyword twice does not count any row twice. */
  lemma KeywordTotalCountsOnce(df: Option<Frame>, nameCol: string, amountCol: string, keywords: seq<string>)
    requires df.Some? ==> WellFormed(df.value)
    ensures KeywordTotal(df, nameCol, amountCol, keywords + keywords)
            == KeywordTotal(df, nameCol, amountCol, keywords)
  {
    var d := keywords + keywords;
    forall k ensures k in Lowered(d) <==> k in Lowered(keywords) {
      if k in Lowered(d) {
        var i :| 0 <= i < |d| && Lowered(d)[i] == k;
        var j := if i < |keywords| then i else i - |keywords|;
        assert Lowered(keywords)[j] == k;
      }
      if k in Lowered(keywords) {
        var i :| 0 <= i < |keywords| && Lowered(keywords)[i] == k;
        assert Lowered(d)[i] == k;
      }
    }
    KeywordTotalDependsOnKeywordSet(df, nameCol, amountCol, d, keywords);
  }

  /** Lower-casing twice is lower-casing once. */
  lemma LowerIdempotent(s: string)
    ensures Lower(Lower(s)) == Lower(s)
  {
    forall i | 0 <= i < |s| ensures LowerChar(LowerChar(s[i])) == LowerChar(s[i]) {
      assert !IsUpper(LowerChar(s[i]));
    }
  }

  /** Matching is case-insensitive in the keywords. */
  lemma KeywordTotalCaseInsensitive(df: Option<Frame>, nameCol: string, amountCol: string, keywords: seq<string>)
    requires df.Some? ==> WellFormed(df.value)
    ensures KeywordTotal(df, nameCol, amountCol, Lowered(keywords))
            == KeywordTotal(df, nameCol, amountCol, keywords)
  {
    assert Lowered(Lowered(keywords)) == Lowered(keywords) by {
      forall i | 0 <= i < |keywords| ensures Lower(Lower(keywords[i])) == Lower(keywords[i]) {
        LowerIdempotent(keywords[i]);
      }
    }
    KeywordTotalDependsOnKeywordSet(df, nameCol, amountCol, Lowered(keywords), keywords);
  }

  lemma {:induction false} MatchedTotalBounds(names: seq<Cell>, amounts: seq<Cell>, keys: seq<string>, n: nat)
    requires n <= |names| && n <= |amounts|
    requires forall i :: 0 <= i < |amounts| ==> Coerce(amounts[i]) >= 0.0
    ensures 0.0 <= MatchedTotal(names, amounts, keys, n) <= Total(amounts[..n])
  {
    if n > 0 {
      MatchedTotalBounds(names, amounts, keys, n - 1);
      assert amounts[..n][..n - 1] == amounts[..n - 1];
    }
  }

  /** With non-negative amounts, the matched total lies between 0 and the whole column's sum. */
  lemma KeywordTotalBounds(df: Option<Frame>, nameCol: string, amountCol: string, keywords: seq<string>)
    requires df.Some? ==> WellFormed(df.value)
    requires df.Some? && amountCol in Names(df.value)
    requires forall i :: 0 <= i < |Lookup(df.value, amountCol).cells| ==> Coerce(Lookup(df.value, amountCol).cells[i]) >= 0.0
    ensures 0.0 <= KeywordTotal(df, nameCol, amountCol, keywords) <= SumDf(df, amountCol)
  {
    var amounts := Lookup(df.value, amountCol).cells;
    TotalNonNegative(amounts);
    if HasColumns(df, nameCol, amountCol) {
      var names := Lookup(df.value, nameCol).cells;
      MatchedTotalBounds(names, amounts, Lowered(keywords), df.value.height);
      assert amounts[..df.value.height] == amounts;
    }
  }

  lemma {:induction false} MatchedTotalAll(names: seq<Cell>, amounts: seq<Cell>, keys: seq<string>, n: nat)
    requires n <= |names| && n <= |amounts|
    requires "" in keys
    ensures MatchedTotal(names, amounts, keys, n) == Total(amounts[..n])
  {
    if n > 0 {
      MatchedTotalAll(names, amounts, keys, n - 1);
      assert amounts[..n][..n - 1] == amounts[..n - 1];
      var i :| 0 <= i < |keys| && keys[i] == "";
      EmptyIsSubstring(Norm(NameText(names[n - 1])));
      assert RowMatches(names, keys, n - 1);
    }
  }

  /** The empty keyword matches every name, so the keyword total becomes the column sum. */
  lemma EmptyKeywordSumsColumn(df: Option<Frame>, nameCol: string, amountCol: string, keywords: seq<string>)
    requires df.Some? ==> WellFormed(df.value)
    requires df.Some? && nameCol in Names(df.value)
    requires "" in keywords
    ensures KeywordTotal(df, nameCol, amountCol, keywords) == SumDf(df, amountCol)
  {
    var i :| 0 <= i < |keywords| && keywords[i] == "";
    assert Lowered(keywords)[i] == "";
    if HasColumns(df, nameCol, amountCol) {
      var amounts := Lookup(df.value, amountCol).cells;
      MatchedTotalAll(Lookup(df.value, nameCol).cells, amounts, Lowered(keywords), df.value.height);
      assert amounts[..df.value.height] == amounts;
    }
  }
}
