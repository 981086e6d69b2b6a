/** The few JavaScript string operations the application relies on:
    `trim`, `startsWith`, `indexOf`, `split` with a string separator,
    `replace` with a string pattern (first occurrence only), and a
    character-class test such as `/[abc]/.test(s)`. */
module Text {
  import opened Outcomes

  /** WhiteSpace and LineTerminator code points, the set `String.prototype.trim`
      strips (ECMAScript 2024, sections 12.2, 12.3 and 22.1.3.32). */
  predicate IsJsWhitespace(c: char) {
    var n := c as int;
    n == 0x09 || n == 0x0A || n == 0x0B || n == 0x0C || n == 0x0D || n == 0x20 || n == 0xA0
    || n == 0x1680 || (0x2000 <= n <= 0x200A) || n == 0x2028 || n == 0x2029 || n == 0x202F
    || n == 0x205F || n == 0x3000 || n == 0xFEFF
  }

  predicate AllWhitespace(s: string) {
    forall i :: 0 <= i < |s| ==> IsJsWhitespace(s[i])
  }

  /** Where the leading whitespace run that starts at `from` ends. */
  function LeadingEnd(s: string, from: nat): (e: nat)
    requires from <= |s|
    ensures from <= e <= |s|
    ensures forall i :: from <= i < e ==> IsJsWhitespace(s[i])
    ensures e < |s| ==> !IsJsWhitespace(s[e])
    decreases |s| - from
  {
    if from < |s| && IsJsWhitespace(s[from]) then LeadingEnd(s, from + 1) else from
  }

  /** Where the whitespace run that ends at `hi` starts, looking no further back than `lo`. */
  function TrailingStart(s: string, lo: nat, hi: nat): (b: nat)
    requires lo <= hi <= |s|
    ensures lo <= b <= hi
    ensures forall i :: b <= i < hi ==> IsJsWhitespace(s[i])
    ensures lo < b ==> !IsJsWhitespace(s[b - 1])
    decreases hi
  {
    if lo < hi && IsJsWhitespace(s[hi - 1]) then TrailingStart(s, lo, hi - 1) else hi
  }

  /** `r` is the slice of `s` that starts at `a`, and only whitespace lies outside it. */
  predicate SliceBetweenWhitespace(s: string, a: int, r: string) {
    0 <= a <= |s| - |r| && r == s[a..a + |r|]
    && (forall i :: 0 <= i < a ==> IsJsWhitespace(s[i]))
    && (forall i :: a + |r| <= i < |s| ==> IsJsWhitespace(s[i]))
  }

  /** `s.trim()`: a contiguous middle slice of `s`, whitespace only outside it,
      and no whitespace at either of its ends. */
  function Trim(s: string): (r: string)
    ensures exists a :: SliceBetweenWhitespace(s, a, r)
    ensures r == [] || (!IsJsWhitespace(r[0]) && !IsJsWhitespace(r[|r| - 1]))
  {
    var a := LeadingEnd(s, 0);
    var b := TrailingStart(s, a, |s|);
    assert SliceBetweenWhitespace(s, a, s[a..b]);
    s[a..b]
  }

  /** `s.trim() === ''` exactly when every character of `s` is whitespace. */
  lemma {:induction false} TrimEmptyIff(s: string)
    ensures Trim(s) == [] <==> AllWhitespace(s)
  {
    var a := LeadingEnd(s, 0);
    var b := TrailingStart(s, a, |s|);
    assert Trim(s) == s[a..b];
  }

  predicate StartsWith(s: string, prefix: string) {
    |prefix| <= |s| && s[..|prefix|] == prefix
  }

  predicate EndsWith(s: string, suffix: string) {
    |suffix| <= |s| && s[|s| - |suffix|..] == suffix
  }

  predicate OccursAt(s: string, pat: string, j: int) {
    0 <= j && j + |pat| <= |s| && s[j..j + |pat|] == pat
  }

  /** The first position at or after `from` where `pat` occurs. */
  function IndexFrom(s: string, pat: string, from: nat): (r: Option<nat>)
    ensures r.Some? ==> from <= r.value && OccursAt(s, pat, r.value)
    ensures r.Some? ==> forall j :: from <= j < r.value ==> !OccursAt(s, pat, j)
    ensures r.None? ==> forall j :: from <= j ==> !OccursAt(s, pat, j)
    decreases |s| - from
  {
    if from + |pat| > |s| then None
    else if s[from..from + |pat|] == pat then Some(from)
    else IndexFrom(s, pat, from + 1)
  }

  /** `s.indexOf(pat)`, with `None` for -1. */
  function IndexOf(s: string, pat: string): (r: Option<nat>)
    ensures r.Some? ==> OccursAt(s, pat, r.value)
    ensures r.Some? ==> forall j :: 0 <= j < r.value ==> !OccursAt(s, pat, j)
    ensures r.None? ==> forall j :: 0 <= j ==> !OccursAt(s, pat, j)
  {
    IndexFrom(s, pat, 0)
  }

  /** An occurrence with none before it is the one `indexOf` finds. */
  lemma {:induction false} IndexOfIsFirst(s: string, pat: string, k: nat)
    requires OccursAt(s, pat, k)
    requires forall j :: 0 <= j < k ==> !OccursAt(s, pat, j)
    ensures IndexOf(s, pat) == Some(k)
  {
  }

  /** `s.replace(pat, rep)` with a string pattern: only the first occurrence. */
  function ReplaceFirst(s: string, pat: string, rep: string): string {
    match IndexOf(s, pat)
    case None => s
    case Some(i) => s[..i] + rep + s[i + |pat|..]
  }

  /** Replacing the first placeholder of `pre + pat + post`, where no earlier
      occurrence exists, puts `rep` in its place and keeps `pre` and `post`,
      including any later placeholder in `post`. */
  lemma {:induction false} ReplaceFirstSplits(pre: string, pat: string, post: string, rep: string)
    requires forall j :: 0 <= j < |pre| ==> !OccursAt(pre + pat + post, pat, j)
    ensures ReplaceFirst(pre + pat + post, pat, rep) == pre + rep + post
  {
    var s := pre + pat + post;
    assert s[|pre|..|pre| + |pat|] == pat;
    IndexOfIsFirst(s, pat, |pre|);
    assert s[..|pre|] == pre;
    assert s[|pre| + |pat|..] == post;
  }

  /** Without the pattern, `replace` changes nothing. */
  lemma {:induction false} ReplaceFirstAbsent(s: string, pat: string, rep: string)
    requires forall j :: 0 <= j ==> !OccursAt(s, pat, j)
    ensures ReplaceFirst(s, pat, rep) == s
  {
  }

  /** Pieces joined back with the separator. */
  function Join(pieces: seq<string>, sep: string): string {
    if |pieces| == 0 then ""
    else if |pieces| == 1 then pieces[0]
    else pieces[0] + sep + Join(pieces[1..], sep)
  }

  /** `s.split(sep)` for a non-empty string separator: left to right,
      non-overlapping. Joining the pieces gives `s` back, and no piece holds
      the separator. */
  function Split(s: string, sep: string): (pieces: seq<string>)
    requires |sep| > 0
    ensures |pieces| >= 1
    ensures Join(pieces, sep) == s
    ensures forall k :: 0 <= k < |pieces| ==> IndexOf(pieces[k], sep) == None
    ensures |pieces| == 1 <==> IndexOf(s, sep).None?
    ensures |pieces| >= 2 ==> IndexOf(s, sep).Some? && pieces[0] == s[..IndexOf(s, sep).value]
    decreases |s|
  {
    match IndexOf(s, sep)
    case None => [s]
    case Some(i) =>
      var rest := Split(s[i + |sep|..], sep);
      assert s == s[..i] + sep + s[i + |sep|..];
      NoEarlierOccurrence(s, sep, i);
      [s[..i]] + rest
  }

  /** A prefix that ends before the first occurrence holds no occurrence. */
  lemma {:induction false} NoEarlierOccurrence(s: string, sep: string, i: nat)
    requires |sep| > 0 && i <= |s|
    requires forall j :: 0 <= j < i ==> !OccursAt(s, sep, j)
    ensures IndexOf(s[..i], sep) == None
  {
    var p := s[..i];
    forall j | 0 <= j ensures !OccursAt(p, sep, j) {
      if j + |sep| <= |p| {
        assert p[j..j + |sep|] == s[j..j + |sep|];
        assert !OccursAt(s, sep, j);
      }
    }
  }

  /** A separator whose first character occurs nowhere else in it splits
      `a + sep + b`, where neither side holds the separator, into exactly `a`
      and `b`: no occurrence can straddle either boundary. */
  lemma {:induction false} SplitAtUniqueSeparator(a: string, sep: string, b: string)
    requires |sep| > 0
    requires forall i :: 1 <= i < |sep| ==> sep[i] != sep[0]
    requires IndexOf(a, sep) == None && IndexOf(b, sep) == None
    ensures Split(a + sep + b, sep) == [a, b]
  {
    var s := a + sep + b;
    forall j | 0 <= j < |a| ensures !OccursAt(s, sep, j) {
      if j + |sep| <= |a| {
        assert s[j..j + |sep|] == a[j..j + |sep|];
        assert !OccursAt(a, sep, j);
      } else if j + |sep| <= |s| {
        assert s[j..j + |sep|][|a| - j] == sep[0];
      }
    }
    assert s[|a|..|a| + |sep|] == sep;
    IndexOfIsFirst(s, sep, |a|);
    assert s[|a| + |sep|..] == b;
    assert s[..|a|] == a;
  }

  /** A string without the separator's first character holds no separator. */
  lemma {:induction false} NoFirstCharNoOccurrence(s: string, sep: string)
    requires |sep| > 0
    requires forall i :: 0 <= i < |s| ==> s[i] != sep[0]
    ensures IndexOf(s, sep) == None
  {
    forall j | 0 <= j ensures !OccursAt(s, sep, j) {
      if j + |sep| <= |s| { assert s[j..j + |sep|][0] == s[j]; }
    }
  }

  /** Prefixing a string that holds no separator with text free of the
      separator's first character keeps it free of the separator. */
  lemma {:induction false} PrefixKeepsNoOccurrence(p: string, m: string, sep: string)
    requires |sep| > 0
    requires forall i :: 0 <= i < |p| ==> p[i] != sep[0]
    requires IndexOf(m, sep) == None
    ensures IndexOf(p + m, sep) == None
  {
    var s := p + m;
    forall j | 0 <= j ensures !OccursAt(s, sep, j) {
      if j + |sep| <= |s| {
        if j < |p| {
          assert s[j..j + |sep|][0] == p[j];
        } else {
          assert s[j..j + |sep|] == m[j - |p|..j - |p| + |sep|];
          assert !OccursAt(m, sep, j - |p|);
        }
      }
    }
  }

  /** `/[...]/.test(s)`: some character of `s` lies in the class. */
  function ContainsAny(s: string, chars: set<char>): (r: bool)
    ensures r <==> exists i :: 0 <= i < |s| && s[i] in chars
  {
    if s == [] then false
    else if s[0] in chars then true
    else
      var r := ContainsAny(s[1..], chars);
      assert forall i :: 1 <= i < |s| ==> s[i] == s[1..][i - 1];
      r
  }

  /** `s.replace(/ /g, '_')`: every U+0020 becomes an underscore. */
  function SpacesToUnderscores(s: string): (r: string)
    ensures |r| == |s|
    ensures forall i :: 0 <= i < |s| ==> r[i] == (if s[i] == ' ' then '_' else s[i])
  {
    if s == [] then [] else [if s[0] == ' ' then '_' else s[0]] + SpacesToUnderscores(s[1..])
  }
}
