/**
 * String operations of Rust's standard library that the core relies on:
 * substring search and `str::split` (used to pull the storage key out of the
 * upload reply), and decimal digits (used by the two-decimal price formatting).
 */
module Text {
  import opened Wrappers

  /** `pat` occurs in `s` starting at index `j`. */
  predicate OccursAt(s: string, pat: string, j: int) {
    0 <= j && j + |pat| <= |s| && s[j..j + |pat|] == pat
  }

  predicate Contains(s: string, pat: string) {
    exists j :: 0 <= j <= |s| && OccursAt(s, pat, j)
  }

  lemma OccursAtShift(s: string, pat: string, j: int)
    requires |s| > 0 && 1 <= j
    ensures OccursAt(s, pat, j) <==> OccursAt(s[1..], pat, j - 1)
  {
    if j + |pat| <= |s| {
      assert s[1..][j - 1..j - 1 + |pat|] == s[j..j + |pat|];
    }
  }

  /** Index of the leftmost occurrence of `pat` in `s`, as `str::find` returns it. */
  function IndexOf(s: string, pat: string): (r: Option<nat>)
    ensures r.Some? ==> OccursAt(s, pat, r.value)
    ensures r.Some? ==> forall j :: 0 <= j < r.value ==> !OccursAt(s, pat, j)
    ensures r.None? ==> forall j :: !OccursAt(s, pat, j)
    decreases |s|
  {
    if |s| < |pat| then None
    else if s[..|pat|] == pat then Some(0)
    else
      var rest := IndexOf(s[1..], pat);
      forall j | 1 <= j ensures OccursAt(s, pat, j) <==> OccursAt(s[1..], pat, j - 1) {
        OccursAtShift(s, pat, j);
      }
      match rest
      case None => None
      case Some(i) => Some(i + 1)
  }

  lemma IndexOfIs(s: string, pat: string, i: nat)
    requires OccursAt(s, pat, i)
    requires forall j :: 0 <= j < i ==> !OccursAt(s, pat, j)
    ensures IndexOf(s, pat) == Some(i)
  {
  }

  /** An occurrence inside a prefix of `s` is an occurrence in `s`. */
  lemma OccursInPrefix(s: string, k: nat, pat: string, j: int)
    requires k <= |s| && OccursAt(s[..k], pat, j)
    ensures OccursAt(s, pat, j)
  {
    assert s[..k][j..j + |pat|] == s[j..j + |pat|];
  }

  /**
   * The first piece of `s.split(pat)`: everything before the leftmost `pat`,
   * or all of `s` when `pat` does not occur.
   */
  function SplitFirst(s: string, pat: string): (r: string)
    requires |pat| > 0
    ensures r <= s
    ensures !Contains(r, pat)
    ensures forall j :: 0 <= j < |r| ==> !OccursAt(s, pat, j)
    ensures r == s || OccursAt(s, pat, |r|)
  {
    match IndexOf(s, pat)
    case None =>
      s
    case Some(i) =>
      var r := s[..i];
      forall j ensures !OccursAt(r, pat, j) {
        if OccursAt(r, pat, j) {
          OccursInPrefix(s, i, pat, j);
        }
      }
      r
  }

  /**
   * The second piece of `s.split(pat)`: the text after the leftmost `pat` up to
   * the next one; `None` when `pat` does not occur (indexing `[1]` panics then).
   */
  function SplitSecond(s: string, pat: string): (r: Option<string>)
    requires |pat| > 0
    ensures r.None? <==> !Contains(s, pat)
    ensures r.Some? ==> !Contains(r.value, pat)
    ensures r.Some? ==> (
      && IndexOf(s, pat).Some?
      && var after := s[IndexOf(s, pat).value + |pat|..];
         && r.value <= after
         && (forall j :: 0 <= j < |r.value| ==> !OccursAt(after, pat, j))
         && (r.value == after || OccursAt(after, pat, |r.value|)))
  {
    match IndexOf(s, pat)
    case None => None
    case Some(i) => Some(SplitFirst(s[i + |pat|..], pat))
  }

  /** A prefix of a string without `pat` has no `pat` either. */
  lemma PrefixKeepsAbsence(s: string, t: string, pat: string)
    requires t <= s && !Contains(s, pat)
    ensures !Contains(t, pat)
  {
    assert t == s[..|t|];
    forall j | 0 <= j <= |t| ensures !OccursAt(t, pat, j) {
      if OccursAt(t, pat, j) {
        OccursInPrefix(s, |t|, pat, j);
      }
    }
  }

  /** A marker whose first character does not come back later in it. */
  predicate FirstCharUnique(pat: string) {
    |pat| > 0 && forall t :: 1 <= t < |pat| ==> pat[t] != pat[0]
  }

  /**
   * No occurrence of such a marker starts inside `a` when `a` does not contain
   * it and the marker's first character follows.
   */
  lemma NoOccurrenceBefore(a: string, pat: string, b: string, j: int)
    requires FirstCharUnique(pat) && !Contains(a, pat) && 0 <= j < |a|
    requires |b| > 0 && b[0] == pat[0]
    ensures !OccursAt(a + b, pat, j)
  {
    var s := a + b;
    assert s[|a|] == pat[0];
    if j + |pat| <= |a| {
      assert s[j..j + |pat|] == a[j..j + |pat|];
      assert OccursAt(s, pat, j) ==> OccursAt(a, pat, j);
    } else if j + |pat| <= |s| {
      assert s[j..j + |pat|][|a| - j] == s[|a|];
    }
  }

  /** In `a + pat + b`, with no `pat` in `a`, the leftmost `pat` is the one after `a`. */
  lemma IndexOfAfter(a: string, pat: string, b: string)
    requires FirstCharUnique(pat) && !Contains(a, pat)
    ensures IndexOf(a + (pat + b), pat) == Some(|a|)
  {
    var s := a + (pat + b);
    assert s[|a|..|a| + |pat|] == pat;
    forall j | 0 <= j < |a| ensures !OccursAt(s, pat, j) {
      NoOccurrenceBefore(a, pat, pat + b, j);
    }
    IndexOfIs(s, pat, |a|);
  }

  lemma SplitFirstAfter(a: string, pat: string, b: string)
    requires FirstCharUnique(pat) && !Contains(a, pat)
    ensures SplitFirst(a + (pat + b), pat) == a
  {
    IndexOfAfter(a, pat, b);
    assert (a + (pat + b))[..|a|] == a;
  }

  // Decimal digits

  predicate IsDigit(c: char) {
    '0' <= c <= '9'
  }

  predicate AllDigits(s: string) {
    forall i :: 0 <= i < |s| ==> IsDigit(s[i])
  }

  function DigitChar(d: nat): (c: char)
    requires d < 10
    ensures IsDigit(c)
  {
    (48 + d) as char
  }

  function DigitValue(c: char): (d: nat)
    requires IsDigit(c)
    ensures d < 10 && DigitChar(d) == c
  {
    c as int - 48
  }

  /** The decimal numeral of `n`, without leading zeros. */
  function NatToDecimal(n: nat): (r: string)
    ensures |r| > 0 && AllDigits(r)
    ensures r[0] != '0' || n == 0
  {
    if n < 10 then [DigitChar(n)] else NatToDecimal(n / 10) + [DigitChar(n % 10)]
  }

  /** The value of a string of decimal digits (most significant first). */
  function DecimalValue(s: string): nat
    requires AllDigits(s)
  {
    if s == [] then 0 else DecimalValue(s[..|s| - 1]) * 10 + DigitValue(s[|s| - 1])
  }

  lemma {:induction false} DecimalRoundTrip(n: nat)
    ensures DecimalValue(NatToDecimal(n)) == n
  {
    if n >= 10 {
      DecimalRoundTrip(n / 10);
      var s := NatToDecimal(n);
      assert s[..|s| - 1] == NatToDecimal(n / 10);
    }
  }
}
