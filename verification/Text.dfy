/** White space as Go's strings.TrimSpace sees it. */
module Text {
  predicate IsSpace(c: char) {
    || '\t' <= c <= '\r' || c == ' ' || c == '\U{0085}' || c == '\U{00A0}' || c == '\U{1680}'
    || '\U{2000}' <= c <= '\U{200A}' || c == '\U{2028}' || c == '\U{2029}' || c == '\U{202F}'
    || c == '\U{205F}' || c == '\U{3000}'
  }

  predicate Blank(s: string) {
    forall i :: 0 <= i < |s| ==> IsSpace(s[i])
  }

  /** The first position from k on that is not white space, or the end. */
  function FirstInk(s: string, k: nat): (n: nat)
    requires k <= |s|
    ensures k <= n <= |s| && forall i :: k <= i < n ==> IsSpace(s[i])
    ensures n < |s| ==> !IsSpace(s[n])
    decreases |s| - k
  {
    if k < |s| && IsSpace(s[k]) then FirstInk(s, k + 1) else k
  }

  /** The end of the last part before n, and not before `low`, that is not white space. */
  function LastInk(s: string, low: nat, n: nat): (m: nat)
    requires low <= n <= |s|
    ensures low <= m <= n && forall i :: m <= i < n ==> IsSpace(s[i])
    ensures m > low ==> !IsSpace(s[m - 1])
  {
    if n > low && IsSpace(s[n - 1]) then LastInk(s, low, n - 1) else n
  }

  function TrimSpace(s: string): string {
    var start := FirstInk(s, 0);
    s[start..LastInk(s, start, |s|)]
  }

  lemma TrimmedIsBlank(s: string)
    ensures TrimSpace(s) == "" <==> Blank(s)
  {
    var start := FirstInk(s, 0);
    assert start < |s| ==> !IsSpace(s[start]);
  }

  /** Around positions i to j there is nothing but white space, and neither end of that part
      is white space. */
  predicate Core(s: string, i: int, j: int) {
    && 0 <= i <= j <= |s|
    && Blank(s[..i]) && Blank(s[j..])
    && (i < j ==> !IsSpace(s[i]) && !IsSpace(s[j - 1]))
  }

  /** TrimSpace removes white space at the two ends and nothing else. */
  lemma TrimShape(s: string)
    ensures exists i, j :: Core(s, i, j) && TrimSpace(s) == s[i..j]
  {
    var start := FirstInk(s, 0);
    assert Core(s, start, LastInk(s, start, |s|));
  }
}
