/** String helpers with JavaScript's meaning: the whitespace class of `\s`
    and `String.prototype.trim`, the line terminators that `.` refuses to
    match in a regular expression, `startsWith`, `repeat` and `join`. */
module Text {

  /** The characters a regular-expression `.` does not match. */
  predicate IsLineTerminator(c: char) {
    c == '\n' || c == '\r' || c == '\U{2028}' || c == '\U{2029}'
  }

  /** The `\s` class, which is also what `trim` removes. */
  predicate IsJsSpace(c: char) {
    || c == '\t' || c == '\U{000B}' || c == '\U{000C}' || c == ' '
    || c == '\U{00A0}' || c == '\U{FEFF}' || c == '\U{1680}'
    || ('\U{2000}' <= c <= '\U{200A}')
    || c == '\U{202F}' || c == '\U{205F}' || c == '\U{3000}'
    || IsLineTerminator(c)
  }

  /** Every character of `s` at an index in `[lo, hi)` is whitespace. */
  predicate SpaceBetween(s: string, lo: int, hi: int) {
    forall k | lo <= k < hi && 0 <= k < |s| :: IsJsSpace(s[k])
  }

  /** No character of `s` at an index in `[lo, hi)` ends a line. */
  predicate NoTerminatorBetween(s: string, lo: int, hi: int) {
    forall k | lo <= k < hi && 0 <= k < |s| :: !IsLineTerminator(s[k])
  }

  predicate NoLineTerminator(s: string) {
    NoTerminatorBetween(s, 0, |s|)
  }

  predicate StartsWith(s: string, prefix: string) {
    |prefix| <= |s| && s[..|prefix|] == prefix
  }

  predicate EndsWith(s: string, suffix: string) {
    |suffix| <= |s| && s[|s| - |suffix|..] == suffix
  }

  /** Where `String.prototype.trim` cuts: the text between the returned
      indices is what remains, everything outside them is whitespace, and
      the remaining text neither starts nor ends with whitespace. */
  function TrimBounds(s: string): (r: (nat, nat))
    ensures r.0 <= r.1 <= |s|
    ensures SpaceBetween(s, 0, r.0) && SpaceBetween(s, r.1, |s|)
    ensures r.0 < r.1 ==> !IsJsSpace(s[r.0]) && !IsJsSpace(s[r.1 - 1])
  {
    var a := SkipBlanks(s, 0);
    if a == |s| then (a, a) else (a, BlankTailStart(s, |s|))
  }

  /** The first index at or after `i` that is not whitespace (or `|s|`). */
  function SkipBlanks(s: string, i: nat): (r: nat)
    requires i <= |s|
    ensures i <= r <= |s| && SpaceBetween(s, i, r)
    ensures r == |s| || !IsJsSpace(s[r])
    decreases |s| - i
  {
    if i < |s| && IsJsSpace(s[i]) then SkipBlanks(s, i + 1) else i
  }

  /** The start of the run of whitespace that ends at `j`. */
  function BlankTailStart(s: string, j: nat): (r: nat)
    requires j <= |s|
    ensures r <= j && SpaceBetween(s, r, j)
    ensures r == 0 || !IsJsSpace(s[r - 1])
  {
    if j > 0 && IsJsSpace(s[j - 1]) then BlankTailStart(s, j - 1) else j
  }

  /** The cut is unique: any window with only whitespace around it and no
      whitespace at its two ends is the one `TrimBounds` finds. */
  lemma TrimBoundsUnique(s: string, i: nat, j: nat)
    requires i < j <= |s| && SpaceBetween(s, 0, i) && SpaceBetween(s, j, |s|)
    requires !IsJsSpace(s[i]) && !IsJsSpace(s[j - 1])
    ensures TrimBounds(s) == (i, j)
  {
    var (a, b) := TrimBounds(s);
    assert !IsJsSpace(s[i]);
    assert !IsJsSpace(s[j - 1]);
  }

  /** `String.prototype.trim`: a window of the text with only whitespace
      around it, itself neither starting nor ending with whitespace. */
  function Trim(s: string): (r: string)
    ensures |r| <= |s|
    ensures r != "" ==> !IsJsSpace(r[0]) && !IsJsSpace(r[|r| - 1])
    ensures exists i | 0 <= i <= |s| - |r| ::
              s[i..i + |r|] == r && SpaceBetween(s, 0, i) && SpaceBetween(s, i + |r|, |s|)
  {
    var (a, b) := TrimBounds(s);
    assert s[a..b] == s[a..a + |s[a..b]|];
    s[a..b]
  }

  /** `'\t'.repeat(n)`. */
  function Tabs(n: nat): (r: string)
    ensures |r| == n
    ensures forall i | 0 <= i < n :: r[i] == '\t'
  {
    if n == 0 then "" else Tabs(n - 1) + "\t"
  }

  /** `Array.prototype.join`: the parts with `sep` between neighbours. */
  function Join(parts: seq<string>, sep: string): (r: string)
    ensures parts == [] ==> r == ""
    ensures |parts| == 1 ==> r == parts[0]
    ensures |parts| >= 2 ==> r == parts[0] + sep + Join(parts[1..], sep)
  {
    if parts == [] then ""
    else if |parts| == 1 then parts[0]
    else parts[0] + sep + Join(parts[1..], sep)
  }

  /** The parts of a list that are non-empty strings, in order:
      `filter(n => !!n)` over strings. */
  function NonEmpty(parts: seq<string>): (r: seq<string>)
    ensures |r| <= |parts|
    ensures forall i | 0 <= i < |r| :: r[i] != ""
    ensures forall x :: x in r <==> x in parts && x != ""
  {
    if parts == [] then []
    else if parts[0] == "" then NonEmpty(parts[1..])
    else [parts[0]] + NonEmpty(parts[1..])
  }

  /** The filter keeps order and repeats: a part added at the end is kept
      at the end exactly when it is non-empty. */
  lemma {:induction false} NonEmptyAppend(parts: seq<string>, x: string)
    ensures NonEmpty(parts + [x]) == NonEmpty(parts) + (if x == "" then [] else [x])
  {
    if parts == [] {
      assert [x][1..] == [];
    } else {
      assert (parts + [x])[1..] == parts[1..] + [x];
      NonEmptyAppend(parts[1..], x);
    }
  }

  /** A joined list of non-empty parts is empty exactly when there are no parts. */
  lemma {:induction false} JoinEmptyIff(parts: seq<string>, sep: string)
    requires forall i | 0 <= i < |parts| :: parts[i] != ""
    ensures Join(parts, sep) == "" <==> parts == []
  {
    if |parts| >= 2 {
      assert |Join(parts, sep)| >= |parts[0]| > 0;
    }
  }

  /** Index of the first occurrence of `x`. */
  function FirstIndex(xs: seq<int>, x: int): (r: nat)
    requires x in xs
    ensures r < |xs| && xs[r] == x
    ensures forall k | 0 <= k < r :: xs[k] != x
  {
    if xs[0] == x then 0 else 1 + FirstIndex(xs[1..], x)
  }

  /** Appending an element leaves the first occurrences before it in place. */
  lemma FirstIndexPrefix(xs: seq<int>, y: int, x: int)
    requires x in xs
    ensures FirstIndex(xs + [y], x) == FirstIndex(xs, x)
  {
    var i := FirstIndex(xs, x);
    var j := FirstIndex(xs + [y], x);
    assert (xs + [y])[i] == x;
  }

  /** Distinct elements of a list, each at the place of its first occurrence:
      the iteration order of a JavaScript `Set` built from the list. */
  function Dedup(xs: seq<int>): (r: seq<int>)
    ensures forall x :: x in r <==> x in xs
    ensures forall i, j | 0 <= i < j < |r| :: r[i] != r[j]
    ensures forall i, j | 0 <= i < j < |r| :: FirstIndex(xs, r[i]) < FirstIndex(xs, r[j])
    ensures xs != [] ==> r != [] && r[0] == xs[0]
    ensures |r| <= |xs|
  {
    if xs == [] then []
    else
      var init := xs[..|xs| - 1];
      var rest := Dedup(init);
      var last := xs[|xs| - 1];
      assert xs == init + [last];
      assert forall x :: x in xs <==> x in init || x == last;
      forall x | x in init
        ensures FirstIndex(xs, x) == FirstIndex(init, x) < |init|
      {
        FirstIndexPrefix(init, last, x);
      }
      if last in rest then rest
      else
        assert FirstIndex(xs, last) == |init|;
        rest + [last]
  }

  lemma Dedup1(a: int)
    ensures Dedup([a]) == [a]
  {
    assert [a][..0] == [];
  }

  lemma Dedup2(a: int, b: int)
    ensures Dedup([a, b]) == [a] + (if b != a then [b] else [])
  {
    assert [a, b][..1] == [a];
    Dedup1(a);
  }

  lemma Dedup3(a: int, b: int, c: int)
    ensures Dedup([a, b, c]) == [a] + (if b != a then [b] else []) + (if c != a && c != b then [c] else [])
  {
    assert [a, b, c][..2] == [a, b];
    Dedup2(a, b);
  }
}
