/**
 * String helpers of the dashboard: `_norm` (lower-case, trim, collapse
 * whitespace runs to one space), the `strip()`/`lower()` steps it is built
 * from, substring search (`k in name`) and the decimal rendering of a count.
 */
module Text {

  /** Whitespace as Python's `str.isspace()` and the regex class `\s` see it. */
  predicate IsSpace(c: char) {
    var n := c as int;
    (9 <= n <= 13) || (28 <= n <= 32) || n == 0x85 || n == 0xA0 || n == 0x1680
    || (0x2000 <= n <= 0x200A) || n == 0x2028 || n == 0x2029 || n == 0x202F
    || n == 0x205F || n == 0x3000
  }

  predicate IsUpper(c: char) { 'A' <= c <= 'Z' }

  /** `str.lower()` on one character (ASCII letters only). */
  function LowerChar(c: char): (r: char)
    ensures !IsUpper(r)
    ensures IsSpace(r) <==> IsSpace(c)
    ensures !IsUpper(c) ==> r == c
  {
    if IsUpper(c) then (c as int + 32) as char else c
  }

  function Lower(s: string): string {
    seq(|s|, i requires 0 <= i < |s| => LowerChar(s[i]))
  }

  /** Number of whitespace characters at the start of `s`. */
  function LeadingSpaces(s: string): (n: nat)
    ensures n <= |s|
  {
    if |s| > 0 && IsSpace(s[0]) then 1 + LeadingSpaces(s[1..]) else 0
  }

  /** Number of whitespace characters at the end of `s`. */
  function TrailingSpaces(s: string): (n: nat)
    ensures n <= |s|
  {
    if |s| > 0 && IsSpace(s[|s| - 1]) then 1 + TrailingSpaces(s[..|s| - 1]) else 0
  }

  /** `str.lstrip()`. */
  function TrimStart(s: string): string {
    s[LeadingSpaces(s)..]
  }

  /** `str.rstrip()`. */
  function TrimEnd(s: string): string {
    s[..|s| - TrailingSpaces(s)]
  }

  /** `str.strip()`. */
  function Strip(s: string): string {
    TrimEnd(TrimStart(s))
  }

  lemma {:induction false} LeadingSpacesFacts(s: string)
    ensures forall i :: 0 <= i < LeadingSpaces(s) ==> IsSpace(s[i])
    ensures LeadingSpaces(s) < |s| ==> !IsSpace(s[LeadingSpaces(s)])
    decreases |s|
  {
    if |s| > 0 && IsSpace(s[0]) {
      LeadingSpacesFacts(s[1..]);
    }
  }

  lemma {:induction false} TrailingSpacesFacts(s: string)
    ensures forall i :: |s| - TrailingSpaces(s) <= i < |s| ==> IsSpace(s[i])
    ensures TrailingSpaces(s) < |s| ==> !IsSpace(s[|s| - TrailingSpaces(s) - 1])
    decreases |s|
  {
    if |s| > 0 && IsSpace(s[|s| - 1]) {
      TrailingSpacesFacts(s[..|s| - 1]);
    }
  }

  /** `lstrip` removes exactly the leading whitespace. */
  lemma TrimStartFacts(s: string)
    ensures var r := TrimStart(s);
      |r| <= |s| && r == s[|s| - |r|..]
      && (forall i :: 0 <= i < |s| - |r| ==> IsSpace(s[i]))
      && (|r| > 0 ==> !IsSpace(r[0]))
  {
    LeadingSpacesFacts(s);
  }

  /** `rstrip` removes exactly the trailing whitespace. */
  lemma TrimEndFacts(s: string)
    ensures var r := TrimEnd(s);
      |r| <= |s| && r == s[..|r|]
      && (forall i :: |r| <= i < |s| ==> IsSpace(s[i]))
      && (|r| > 0 ==> !IsSpace(r[|r| - 1]))
  {
    TrailingSpacesFacts(s);
  }

  /** `strip` leaves no whitespace at either end. */
  lemma StripFacts(s: string)
    ensures var r := Strip(s); |r| > 0 ==> !IsSpace(r[0]) && !IsSpace(r[|r| - 1])
  {
    TrimStartFacts(s);
    TrimEndFacts(TrimStart(s));
    var t := TrimStart(s);
    var r := TrimEnd(t);
    if |r| > 0 {
      assert r[0] == t[0];
    }
  }

  /** `re.sub(r"\s+", " ", s)`: every maximal whitespace run becomes one space. */
  function Collapse(s: string): string
    decreases |s|
  {
    if |s| == 0 then ""
    else if IsSpace(s[0]) then " " + Collapse(TrimStart(s))
    else [s[0]] + Collapse(s[1..])
  }

  /** `_norm`: trim, lower-case, collapse whitespace runs. */
  function Norm(s: string): string {
    Collapse(Lower(Strip(s)))
  }

  /** No upper-case letter, no whitespace but single spaces between words. */
  predicate Collapsed(t: string) {
    forall i :: 0 <= i < |t| && IsSpace(t[i]) ==> t[i] == ' ' && i + 1 < |t| && !IsSpace(t[i + 1])
  }

  predicate IsNormalized(t: string) {
    (forall i :: 0 <= i < |t| ==> !IsUpper(t[i]))
    && Collapsed(t)
    && (|t| > 0 ==> !IsSpace(t[0]))
  }

  /** The characters of `s` that are not whitespace, in order. */
  function NonSpace(s: string): string {
    if |s| == 0 then ""
    else (if IsSpace(s[0]) then "" else [s[0]]) + NonSpace(s[1..])
  }

  // ---------------------------------------------------------------------------
  // Shape of Collapse

  lemma {:induction false} CollapseNoUpper(u: string)
    requires forall i :: 0 <= i < |u| ==> !IsUpper(u[i])
    ensures forall i :: 0 <= i < |Collapse(u)| ==> !IsUpper(Collapse(u)[i])
    decreases |u|
  {
    if |u| == 0 {
    } else if IsSpace(u[0]) {
      var r := TrimStart(u);
      TrimStartFacts(u);
      assert forall i :: 0 <= i < |r| ==> r[i] == u[|u| - |r| + i];
      CollapseNoUpper(r);
    } else {
      assert forall i :: 0 <= i < |u| - 1 ==> u[1..][i] == u[i + 1];
      CollapseNoUpper(u[1..]);
    }
  }

  /** Every whitespace character `Collapse` leaves is a single space followed by a non-space. */
  lemma {:induction false} CollapseSingleSpaces(u: string)
    ensures forall i :: 0 <= i < |Collapse(u)| && IsSpace(Collapse(u)[i]) ==>
      Collapse(u)[i] == ' ' && (i + 1 < |Collapse(u)| ==> !IsSpace(Collapse(u)[i + 1]))
    decreases |u|
  {
    if |u| == 0 {
    } else if IsSpace(u[0]) {
      var r := TrimStart(u);
      TrimStartFacts(u);
      CollapseSingleSpaces(r);
      var cr := Collapse(r);
      assert Collapse(u) == " " + cr;
      if |r| > 0 {
        assert cr == [r[0]] + Collapse(r[1..]);
      }
    } else {
      CollapseSingleSpaces(u[1..]);
      assert Collapse(u) == [u[0]] + Collapse(u[1..]);
    }
  }

  lemma {:induction false} CollapseLast(u: string)
    requires |u| > 0 && !IsSpace(u[|u| - 1])
    ensures |Collapse(u)| > 0 && !IsSpace(Collapse(u)[|Collapse(u)| - 1])
    decreases |u|
  {
    if IsSpace(u[0]) {
      var r := TrimStart(u);
      TrimStartFacts(u);
      assert |r| > 0 && r[|r| - 1] == u[|u| - 1];
      CollapseLast(r);
    } else if |u| > 1 {
      assert u[1..][|u| - 2] == u[|u| - 1];
      CollapseLast(u[1..]);
    }
  }

  lemma CollapsedTail(t: string)
    requires Collapsed(t) && |t| > 0
    ensures Collapsed(t[1..])
  {
    forall i | 0 <= i < |t| - 1 && IsSpace(t[1..][i])
      ensures t[1..][i] == ' ' && i + 1 < |t| - 1 && !IsSpace(t[1..][i + 1])
    {
      assert t[1..][i] == t[i + 1];
      assert IsSpace(t[i + 1]);
    }
  }

  lemma {:induction false} CollapseOfCollapsed(t: string)
    requires Collapsed(t)
    ensures Collapse(t) == t
    decreases |t|
  {
    if |t| > 0 {
      CollapsedTail(t);
      CollapseOfCollapsed(t[1..]);
      if IsSpace(t[0]) {
        assert !IsSpace(t[1]);
        assert TrimStart(t[1..]) == t[1..];
        assert TrimStart(t) == t[1..];
      }
    }
  }

  /** `_norm` always yields a lower-case, trimmed, single-spaced string. */
  lemma NormIsNormalized(s: string)
    ensures IsNormalized(Norm(s))
  {
    var st := Strip(s);
    var u := Lower(st);
    var c := Collapse(u);
    StripFacts(s);
    CollapseNoUpper(u);
    CollapseSingleSpaces(u);
    if |u| > 0 {
      assert u[0] == LowerChar(st[0]) && u[|u| - 1] == LowerChar(st[|st| - 1]);
      CollapseLast(u);
      assert c == [u[0]] + Collapse(u[1..]);
    }
  }

  /** A normalized string is a fixed point of `_norm`. */
  lemma NormOfNormalized(t: string)
    requires IsNormalized(t)
    ensures Norm(t) == t
  {
    TrimStartFacts(t);
    TrimEndFacts(t);
    assert TrimStart(t) == t;
    assert TrimEnd(t) == t by {
      if |t| > 0 { assert !IsSpace(t[|t| - 1]); }
    }
    assert Lower(t) == t;
    CollapseOfCollapsed(t);
  }

  /** Normalizing twice gives the same result as normalizing once. */
  lemma NormIdempotent(s: string)
    ensures Norm(Norm(s)) == Norm(s)
  {
    NormIsNormalized(s);
    NormOfNormalized(Norm(s));
  }

  // ---------------------------------------------------------------------------
  // Norm only touches whitespace and letter case

  lemma {:induction false} NonSpaceAppend(a: string, b: string)
    ensures NonSpace(a + b) == NonSpace(a) + NonSpace(b)
    decreases |a|
  {
    if |a| == 0 {
      assert a + b == b;
    } else {
      assert (a + b)[1..] == a[1..] + b;
      NonSpaceAppend(a[1..], b);
    }
  }

  lemma {:induction false} NonSpaceOfSpaces(s: string)
    requires forall i :: 0 <= i < |s| ==> IsSpace(s[i])
    ensures NonSpace(s) == ""
    decreases |s|
  {
    if |s| > 0 { NonSpaceOfSpaces(s[1..]); }
  }

  lemma NonSpaceTrimStart(s: string)
    ensures NonSpace(TrimStart(s)) == NonSpace(s)
  {
    var r := TrimStart(s);
    TrimStartFacts(s);
    var k := |s| - |r|;
    assert s == s[..k] + r;
    NonSpaceAppend(s[..k], r);
    NonSpaceOfSpaces(s[..k]);
  }

  lemma NonSpaceTrimEnd(s: string)
    ensures NonSpace(TrimEnd(s)) == NonSpace(s)
  {
    var r := TrimEnd(s);
    TrimEndFacts(s);
    assert s == r + s[|r|..];
    NonSpaceAppend(r, s[|r|..]);
    NonSpaceOfSpaces(s[|r|..]);
  }

  lemma {:induction false} NonSpaceCollapse(u: string)
    ensures NonSpace(Collapse(u)) == NonSpace(u)
    decreases |u|
  {
    if |u| == 0 {
    } else if IsSpace(u[0]) {
      NonSpaceCollapse(TrimStart(u));
      NonSpaceAppend(" ", Collapse(TrimStart(u)));
      NonSpaceTrimStart(u);
    } else {
      NonSpaceCollapse(u[1..]);
      NonSpaceAppend([u[0]], Collapse(u[1..]));
    }
  }

  lemma {:induction false} NonSpaceLower(s: string)
    ensures NonSpace(Lower(s)) == Lower(NonSpace(s))
    decreases |s|
  {
    if |s| > 0 {
      assert Lower(s)[1..] == Lower(s[1..]);
      NonSpaceLower(s[1..]);
      var head := if IsSpace(s[0]) then "" else [s[0]];
      assert Lower(head + NonSpace(s[1..])) == Lower(head) + Lower(NonSpace(s[1..]));
    }
  }

  /** `_norm` removes or merges whitespace and lower-cases; every other character survives, in order. */
  lemma NormKeepsText(s: string)
    ensures NonSpace(Norm(s)) == Lower(NonSpace(s))
  {
    NonSpaceCollapse(Lower(Strip(s)));
    NonSpaceLower(Strip(s));
    NonSpaceTrimEnd(TrimStart(s));
    NonSpaceTrimStart(s);
  }

  // ---------------------------------------------------------------------------
  // Norm turns each whitespace run between words into exactly one space

  predicate AllSpace(w: string) {
    forall i :: 0 <= i < |w| ==> IsSpace(w[i])
  }

  lemma LowerAppend(a: string, b: string)
    ensures Lower(a + b) == Lower(a) + Lower(b)
  {
  }

  /** Leading whitespace of `a + b` stays inside `a` once `a` has a non-space. */
  lemma {:induction false} LeadingSpacesAppend(a: string, b: string)
    requires LeadingSpaces(a) < |a|
    ensures LeadingSpaces(a + b) == LeadingSpaces(a)
    decreases |a|
  {
    if IsSpace(a[0]) {
      assert (a + b)[1..] == a[1..] + b;
      LeadingSpacesAppend(a[1..], b);
    }
  }

  /** Trailing whitespace of `a + b` stays inside `b` once `b` has a non-space. */
  lemma {:induction false} TrailingSpacesAppend(a: string, b: string)
    requires TrailingSpaces(b) < |b|
    ensures TrailingSpaces(a + b) == TrailingSpaces(b)
    decreases |b|
  {
    assert (a + b)[|a + b| - 1] == b[|b| - 1];
    if IsSpace(b[|b| - 1]) {
      assert (a + b)[..|a + b| - 1] == a + b[..|b| - 1];
      TrailingSpacesAppend(a, b[..|b| - 1]);
    }
  }

  /** Collapsing splits at a boundary where the left part ends in a non-space. */
  lemma {:induction false} CollapseAppend(x: string, z: string)
    requires |x| > 0 && !IsSpace(x[|x| - 1])
    ensures Collapse(x + z) == Collapse(x) + Collapse(z)
    decreases |x|
  {
    if IsSpace(x[0]) {
      LeadingSpacesFacts(x);
      LeadingSpacesAppend(x, z);
      var r := TrimStart(x);
      assert TrimStart(x + z) == r + z;
      assert |r| > 0 && r[|r| - 1] == x[|x| - 1];
      CollapseAppend(r, z);
    } else if |x| == 1 {
      assert (x + z)[1..] == z;
    } else {
      assert (x + z)[1..] == x[1..] + z;
      assert x[1..][|x| - 2] == x[|x| - 1];
      CollapseAppend(x[1..], z);
    }
  }

  /** A whitespace run in front of a word collapses to one space. */
  lemma CollapseRun(w: string, y: string)
    requires |w| > 0 && AllSpace(w)
    requires |y| > 0 && !IsSpace(y[0])
    ensures Collapse(w + y) == " " + Collapse(y)
  {
    LeadingSpacesFacts(w);
    assert (w + y)[0] == w[0];
    LeadingSpacesOfRun(w, y);
  }

  lemma {:induction false} LeadingSpacesOfRun(w: string, y: string)
    requires AllSpace(w)
    requires |y| > 0 && !IsSpace(y[0])
    ensures LeadingSpaces(w + y) == |w|
    decreases |w|
  {
    if |w| == 0 {
      assert w + y == y;
    } else {
      assert (w + y)[1..] == w[1..] + y;
      LeadingSpacesOfRun(w[1..], y);
    }
  }

  /** Stripping `a + w + b` strips only the outer edges of `a` and `b`. */
  lemma StripRun(a: string, w: string, b: string)
    requires |a| > 0 && !IsSpace(a[|a| - 1])
    requires |b| > 0 && !IsSpace(b[0])
    ensures Strip(a + w + b) == Strip(a) + w + Strip(b)
    ensures |Strip(a)| > 0 && Strip(a)[|Strip(a)| - 1] == a[|a| - 1]
    ensures |Strip(b)| > 0 && Strip(b)[0] == b[0]
  {
    LeadingSpacesFacts(a);
    TrailingSpacesFacts(b);
    var ta := TrimStart(a);
    LeadingSpacesAppend(a, w + b);
    assert a + w + b == a + (w + b);
    assert TrimStart(a + w + b) == ta + w + b;
    assert |ta| > 0 && ta[|ta| - 1] == a[|a| - 1];
    TrailingSpacesAppend(ta + w, b);
    assert ta + w + b == (ta + w) + b;
    assert TrimEnd(ta) == ta;
    assert TrimStart(b) == b;
  }

  /** Collapsing a non-empty whitespace run between two words leaves one space. */
  lemma CollapseBetween(x: string, w: string, y: string)
    requires |x| > 0 && !IsSpace(x[|x| - 1])
    requires |w| > 0 && AllSpace(w)
    requires |y| > 0 && !IsSpace(y[0])
    ensures Collapse(x + w + y) == Collapse(x) + " " + Collapse(y)
  {
    var wy := w + y;
    assert x + w + y == x + wy;
    CollapseAppend(x, wy);
    CollapseRun(w, y);
    assert Collapse(x + wy) == Collapse(x) + (" " + Collapse(y));
  }

  /**
   * Between two words, `_norm` turns any non-empty whitespace run into exactly
   * one space and normalizes each side on its own.
   */
  lemma NormRun(a: string, w: string, b: string)
    requires |a| > 0 && !IsSpace(a[|a| - 1])
    requires |w| > 0 && AllSpace(w)
    requires |b| > 0 && !IsSpace(b[0])
    ensures Norm(a + w + b) == Norm(a) + " " + Norm(b)
  {
    StripRun(a, w, b);
    var sa, sb := Strip(a), Strip(b);
    LowerAppend(sa + w, sb);
    LowerAppend(sa, w);
    var la, lw, lb := Lower(sa), Lower(w), Lower(sb);
    assert la[|la| - 1] == LowerChar(sa[|sa| - 1]);
    assert lb[0] == LowerChar(sb[0]);
    assert AllSpace(lw);
    CollapseBetween(la, lw, lb);
  }

  /** A single word is only lower-cased. */
  lemma NormWord(s: string)
    requires forall i :: 0 <= i < |s| ==> !IsSpace(s[i])
    ensures Norm(s) == Lower(s)
  {
    assert TrimStart(s) == s;
    assert TrimEnd(s) == s;
    CollapseOfCollapsed(Lower(s));
  }

  lemma {:induction false} LeadingSpacesPrefix(w: string, s: string)
    requires AllSpace(w)
    ensures LeadingSpaces(w + s) == |w| + LeadingSpaces(s)
    decreases |w|
  {
    if |w| == 0 {
      assert w + s == s;
    } else {
      assert (w + s)[1..] == w[1..] + s;
      LeadingSpacesPrefix(w[1..], s);
    }
  }

  lemma {:induction false} TrailingSpacesSuffix(s: string, w: string)
    requires AllSpace(w)
    ensures TrailingSpaces(s + w) == |w| + TrailingSpaces(s)
    decreases |w|
  {
    if |w| == 0 {
      assert s + w == s;
    } else {
      assert (s + w)[..|s + w| - 1] == s + w[..|w| - 1];
      TrailingSpacesSuffix(s, w[..|w| - 1]);
    }
  }

  lemma TrimStartPrefix(w: string, x: string)
    requires AllSpace(w)
    ensures TrimStart(w + x) == TrimStart(x)
  {
    LeadingSpacesPrefix(w, x);
    assert (w + x)[|w| + LeadingSpaces(x)..] == x[LeadingSpaces(x)..];
  }

  lemma TrimEndSuffix(x: string, w: string)
    requires AllSpace(w)
    ensures TrimEnd(x + w) == TrimEnd(x)
  {
    TrailingSpacesSuffix(x, w);
    assert (x + w)[..|x| - TrailingSpaces(x)] == x[..|x| - TrailingSpaces(x)];
  }

  /** Trailing whitespace does not change `strip`'s result. */
  lemma StripSuffix(x: string, w: string)
    requires AllSpace(w)
    ensures Strip(x + w) == Strip(x)
  {
    LeadingSpacesFacts(x);
    if LeadingSpaces(x) == |x| {
      assert AllSpace(x + w);
      TrimStartPrefix(x + w, "");
      assert x + w + "" == x + w;
      TrimStartPrefix(x, "");
      assert x + "" == x;
    } else {
      LeadingSpacesAppend(x, w);
      assert TrimStart(x + w) == TrimStart(x) + w;
      TrimEndSuffix(TrimStart(x), w);
    }
  }

  /** Whitespace before or after the text does not change `_norm`'s result. */
  lemma NormEdges(w1: string, s: string, w2: string)
    requires AllSpace(w1) && AllSpace(w2)
    ensures Norm(w1 + s + w2) == Norm(s)
  {
    assert w1 + s + w2 == w1 + (s + w2);
    TrimStartPrefix(w1, s + w2);
    assert Strip(w1 + s + w2) == Strip(s + w2);
    StripSuffix(s, w2);
  }

  // ---------------------------------------------------------------------------
  // Substring search, `k in name`

  predicate IsSubstring(k: string, s: string)
    decreases |s|
  {
    if |k| > |s| then false
    else if k == s[..|k|] then true
    else IsSubstring(k, s[1..])
  }

  /** `k` occurs in `s` starting at position `p`. */
  predicate OccursAt(k: string, s: string, p: nat) {
    p + |k| <= |s| && s[p..p + |k|] == k
  }

  /** The recursive search agrees with the positional definition of a substring. */
  lemma {:induction false} IsSubstringIff(k: string, s: string)
    ensures IsSubstring(k, s) <==> exists p: nat :: OccursAt(k, s, p)
    decreases |s|
  {
    if |k| > |s| {
    } else if k == s[..|k|] {
      assert OccursAt(k, s, 0);
    } else {
      IsSubstringIff(k, s[1..]);
      if exists p: nat :: OccursAt(k, s, p) {
        var p: nat :| OccursAt(k, s, p);
        assert p != 0;
        assert s[1..][p - 1..p - 1 + |k|] == s[p..p + |k|];
        assert OccursAt(k, s[1..], p - 1);
      }
      if exists p: nat :: OccursAt(k, s[1..], p) {
        var p: nat :| OccursAt(k, s[1..], p);
        assert s[p + 1..p + 1 + |k|] == s[1..][p..p + |k|];
        assert OccursAt(k, s, p + 1);
      }
    }
  }

  /** The empty keyword is a substring of every name. */
  lemma EmptyIsSubstring(s: string)
    ensures IsSubstring("", s)
  {
    assert "" == s[..0];
  }

  // ---------------------------------------------------------------------------
  // Decimal rendering of a count, as in the f-string `{max_months}`

  function DigitChar(d: nat): char
    requires d < 10
  {
    "0123456789"[d]
  }

  function NatToString(n: nat): (r: string)
    ensures |r| > 0
    ensures forall i :: 0 <= i < |r| ==> '0' <= r[i] <= '9'
  {
    if n < 10 then [DigitChar(n)] else NatToString(n / 10) + [DigitChar(n % 10)]
  }
}
