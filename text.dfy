/** Character and string helpers shared by the normaliser, the relevance
    filter, the classifier and the extractors. Only ASCII case folding,
    ASCII digits and ASCII whitespace are modelled. */
module Text {

  import opened Wrappers

  /** The Indian rupee sign, the only currency glyph the extractors look for. */
  const Rupee: char := '₹'

  predicate IsDigit(c: char) {
    '0' <= c <= '9'
  }

  /** Some character is an ASCII digit, as `any(c.isdigit() for c in s)` and `re.search(r'\d', s)` test. */
  predicate HasDigit(s: string) {
    exists i | 0 <= i < |s| :: IsDigit(s[i])
  }

  /** `re.search(r'\d{2,}', s)`: two digits in a row somewhere. */
  predicate HasDigitPair(s: string) {
    exists i | 0 <= i < |s| - 1 :: IsDigit(s[i]) && IsDigit(s[i + 1])
  }

  /** Python's ASCII whitespace as seen by `str.isspace`, `str.strip` and `str.split`. */
  predicate IsSpace(c: char) {
    c == ' ' || '\t' <= c <= '\r' || '\U{1C}' <= c <= '\U{1F}'
  }

  function LowerChar(c: char): char {
    if 'A' <= c <= 'Z' then (c as int - 'A' as int + 'a' as int) as char else c
  }

  /** `str.lower()`, restricted to ASCII letters. */
  function Lower(s: string): (r: string)
    ensures |r| == |s|
    ensures forall i :: 0 <= i < |s| ==> r[i] == LowerChar(s[i])
  {
    seq(|s|, i requires 0 <= i < |s| => LowerChar(s[i]))
  }

  lemma LowerIdempotent(s: string)
    ensures Lower(Lower(s)) == Lower(s)
  {
  }

  /** Python truthiness on strings: `a or b`. */
  function Or(a: string, b: string): string {
    if a != "" then a else b
  }

  /** `x or ""` for an attribute that may be missing. */
  function OrEmpty(a: Option<string>): string {
    if a.Some? then a.value else ""
  }

  predicate StartsWith(s: string, prefix: string) {
    |prefix| <= |s| && s[..|prefix|] == prefix
  }

  predicate OccursAt(hay: string, needle: string, i: int) {
    0 <= i <= |hay| - |needle| && hay[i..i + |needle|] == needle
  }

  /** Python's `needle in hay` on strings. */
  predicate Contains(hay: string, needle: string) {
    exists i | 0 <= i <= |hay| - |needle| :: OccursAt(hay, needle, i)
  }

  /** True when some keyword of `keywords` occurs in `hay`: `any(k in hay for k in keywords)`. */
  predicate AnyIn(keywords: seq<string>, hay: string) {
    exists k :: k in keywords && Contains(hay, k)
  }

  lemma ContainsTransitive(a: string, b: string, c: string)
    requires Contains(b, a) && Contains(c, b)
    ensures Contains(c, a)
  {
    var i :| 0 <= i <= |b| - |a| && OccursAt(b, a, i);
    var j :| 0 <= j <= |c| - |b| && OccursAt(c, b, j);
    assert b[i..i + |a|] == a && c[j..j + |b|] == b;
    forall k | 0 <= k < |a|
      ensures c[j + i + k] == a[k]
    {
      assert c[j + i + k] == c[j..j + |b|][i + k] == b[i + k] == b[i..i + |a|][k];
    }
    assert c[j + i..j + i + |a|] == a;
    assert OccursAt(c, a, j + i);
  }

  lemma NotContainsMissingChar(hay: string, needle: string, k: nat)
    requires k < |needle| && forall i :: 0 <= i < |hay| ==> hay[i] != needle[k]
    ensures !Contains(hay, needle)
  {
    forall i | 0 <= i <= |hay| - |needle|
      ensures !OccursAt(hay, needle, i)
    {
      assert hay[i..i + |needle|][k] == hay[i + k];
    }
  }

  /** A cheap way to refute `any(k in hay for k in keywords)`: for each keyword,
      `missing[j]` is the position of one of its characters that `hay` lacks. */
  lemma NoneOccurs(keywords: seq<string>, hay: string, missing: seq<nat>)
    requires |missing| == |keywords|
    requires forall j :: 0 <= j < |keywords| ==> missing[j] < |keywords[j]| && keywords[j][missing[j]] !in hay
    ensures !AnyIn(keywords, hay)
  {
    forall j | 0 <= j < |keywords| ensures !Contains(hay, keywords[j]) {
      NotContainsMissingChar(hay, keywords[j], missing[j]);
    }
  }

  /** Strips leading whitespace. */
  function TrimStart(s: string): (r: string)
    ensures |r| <= |s| && r == s[|s| - |r|..]
    ensures r == [] || !IsSpace(r[0])
    ensures forall i :: 0 <= i < |s| - |r| ==> IsSpace(s[i])
  {
    if s != [] && IsSpace(s[0]) then
      var r := TrimStart(s[1..]);
      assert s[1..][|s| - 1 - |r|..] == s[|s| - |r|..];
      assert forall i :: 1 <= i < |s| - |r| ==> s[i] == s[1..][i - 1];
      r
    else s
  }

  /** Strips trailing whitespace. */
  function TrimEnd(s: string): (r: string)
    ensures |r| <= |s| && r == s[..|r|]
    ensures r == [] || !IsSpace(r[|r| - 1])
    ensures forall i :: |r| <= i < |s| ==> IsSpace(s[i])
  {
    if s != [] && IsSpace(s[|s| - 1]) then
      var r := TrimEnd(s[..|s| - 1]);
      assert s[..|s| - 1][..|r|] == s[..|r|];
      r
    else s
  }

  /** `str.strip()`. */
  function Strip(s: string): string {
    TrimEnd(TrimStart(s))
  }

  /** Length of the longest whitespace-free prefix of `s`. */
  function WordLength(s: string): (n: nat)
    ensures n <= |s|
    ensures forall i :: 0 <= i < n ==> !IsSpace(s[i])
    ensures n == |s| || IsSpace(s[n])
  {
    if s == [] || IsSpace(s[0]) then 0 else 1 + WordLength(s[1..])
  }

  lemma {:induction false} WordLengthIs(s: string, n: nat)
    requires n <= |s| && (forall i :: 0 <= i < n ==> !IsSpace(s[i])) && (n == |s| || IsSpace(s[n]))
    ensures WordLength(s) == n
  {
    if n > 0 {
      WordLengthIs(s[1..], n - 1);
    }
  }

  /** `str.split()` with no separator: the maximal whitespace-free runs, in order. */
  function Words(s: string): (ws: seq<string>)
    ensures forall k :: 0 <= k < |ws| ==> ws[k] != [] && forall i :: 0 <= i < |ws[k]| ==> !IsSpace(ws[k][i])
    decreases |s|
  {
    if s == [] then []
    else if IsSpace(s[0]) then Words(s[1..])
    else
      var n := WordLength(s);
      [s[..n]] + Words(s[n..])
  }

  /** A non-empty run without whitespace is a single word. */
  lemma WordsOfWord(w: string)
    requires w != [] && forall i :: 0 <= i < |w| ==> !IsSpace(w[i])
    ensures Words(w) == [w]
  {
    WordLengthIs(w, |w|);
    assert w[..|w|] == w && w[|w|..] == [];
  }

  /** Splitting at any whitespace character gives the words of each side, in order.
      With `Words("") == []` and WordsOfWord this determines `Words` on every string:
      no word is ever cut in two, and no whitespace run yields an empty word. */
  lemma {:induction false} WordsSplitAt(a: string, c: char, b: string)
    requires IsSpace(c)
    ensures Words(a + [c] + b) == Words(a) + Words(b)
    decreases |a|
  {
    var s := a + [c] + b;
    if a == [] {
      assert s[1..] == b;
    } else if IsSpace(a[0]) {
      assert s[1..] == a[1..] + [c] + b;
      WordsSplitAt(a[1..], c, b);
    } else {
      var m := WordLength(a);
      WordsAfterRun(a, c, b);
      WordsSplitAt(a[m..], c, b);
      assert Words(a) == [a[..m]] + Words(a[m..]);
    }
  }

  /** The first word of `a + [c] + b`, for a whitespace `c`, is the first word of `a`. */
  lemma WordsAfterRun(a: string, c: char, b: string)
    requires IsSpace(c) && a != [] && !IsSpace(a[0])
    ensures Words(a + [c] + b) == [a[..WordLength(a)]] + Words(a[WordLength(a)..] + [c] + b)
  {
    var s := a + [c] + b;
    var m := WordLength(a);
    assert forall i :: 0 <= i < m ==> s[i] == a[i];
    WordLengthIs(s, m);
    assert s[..m] == a[..m];
    assert s[m..] == a[m..] + [c] + b;
  }
}
