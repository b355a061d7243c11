/**
 * The parts of Python's `str` that the ingest code relies on, over `seq<char>`:
 * prefix tests, whitespace stripping, `rsplit(sep, 1)`, `split(sep, 1)[1]`,
 * `split(',')`, `replace`, ASCII lowering, and `int()` / `str()` on integers.
 */
module PyStr {
  import opened Wrappers

  // ---------------------------------------------------------------------------
  // Characters
  // ---------------------------------------------------------------------------

  /** `c.isdigit()`, restricted to the ASCII digits. */
  predicate IsDigit(c: char) {
    '0' <= c <= '9'
  }

  /** The characters `str.isspace()` accepts, and so the ones `strip()` removes. */
  predicate IsSpace(c: char) {
    c == ' ' || ('\t' <= c <= '\r') || ('\U{1C}' <= c <= '\U{1F}') || c == '\U{85}' || c == '\U{A0}'
    || c == '\U{1680}' || ('\U{2000}' <= c <= '\U{200A}') || c == '\U{2028}' || c == '\U{2029}'
    || c == '\U{202F}' || c == '\U{205F}' || c == '\U{3000}'
  }

  /** `line[0].isdigit()`; a line read from a file is never empty, the guard is for totality. */
  predicate FirstIsDigit(s: string) {
    |s| > 0 && IsDigit(s[0])
  }

  function LowerChar(c: char): char {
    if 'A' <= c <= 'Z' then (c as int + 32) as char else c
  }

  /** `s.lower()` on the ASCII letters. */
  function Lower(s: string): (r: string)
    ensures |r| == |s|
    ensures forall i :: 0 <= i < |s| ==> r[i] == LowerChar(s[i])
  {
    seq(|s|, i requires 0 <= i < |s| => LowerChar(s[i]))
  }

  // ---------------------------------------------------------------------------
  // Prefixes and occurrences
  // ---------------------------------------------------------------------------

  /** `s.startswith(p)`. */
  predicate StartsWith(s: string, p: string) {
    |p| <= |s| && s[..|p|] == p
  }

  /** A string that differs from `p` at position `j` of `p` does not start with `p`. */
  lemma DiffersAt(s: string, p: string, j: nat)
    requires j < |p| && (j >= |s| || s[j] != p[j])
    ensures !StartsWith(s, p)
  {
    if |p| <= |s| {
      assert s[..|p|][j] == s[j];
    }
  }

  /** A prefix of `s` is a prefix of anything `s` is extended to. */
  lemma StartsWithExtend(s: string, p: string, t: string)
    requires StartsWith(s, p)
    ensures StartsWith(s + t, p)
  {
    assert (s + t)[..|p|] == s[..|p|];
  }

  /** `p` occurs in `s` starting at index `j`. */
  predicate OccursAt(s: string, p: string, j: int) {
    0 <= j && j + |p| <= |s| && s[j..j + |p|] == p
  }

  /** `p in s`. */
  predicate Contains(s: string, p: string) {
    exists j :: 0 <= j <= |s| && OccursAt(s, p, j)
  }

  /** The first occurrence of `p` in `s` at or after `from`. */
  function FindFrom(s: string, p: string, from: nat): (r: Option<nat>)
    decreases |s| - from
    ensures r.Some? ==> from <= r.value && OccursAt(s, p, r.value)
    ensures r.Some? ==> forall j :: from <= j < r.value ==> !OccursAt(s, p, j)
    ensures r.None? ==> forall j :: from <= j ==> !OccursAt(s, p, j)
  {
    if from + |p| > |s| then None
    else if s[from..from + |p|] == p then Some(from)
    else FindFrom(s, p, from + 1)
  }

  /** `s.find(p)`, as an option. */
  function Find(s: string, p: string): (r: Option<nat>)
    ensures r.Some? ==> OccursAt(s, p, r.value) && forall j :: 0 <= j < r.value ==> !OccursAt(s, p, j)
    ensures r.None? ==> forall j :: 0 <= j ==> !OccursAt(s, p, j)
  {
    FindFrom(s, p, 0)
  }

  /** The last occurrence of `p` in `s` that starts before `upTo`. */
  function FindLastBefore(s: string, p: string, upTo: nat): (r: Option<nat>)
    ensures r.Some? ==> r.value < upTo && OccursAt(s, p, r.value)
    ensures r.Some? ==> forall j :: r.value < j < upTo ==> !OccursAt(s, p, j)
    ensures r.None? ==> forall j :: 0 <= j < upTo ==> !OccursAt(s, p, j)
  {
    if upTo == 0 then None
    else if OccursAt(s, p, upTo - 1) then Some(upTo - 1)
    else FindLastBefore(s, p, upTo - 1)
  }

  /** `s.rfind(p)`, as an option. */
  function RFind(s: string, p: string): (r: Option<nat>)
    ensures r.Some? ==> OccursAt(s, p, r.value) && forall j :: r.value < j ==> !OccursAt(s, p, j)
    ensures r.None? ==> forall j :: 0 <= j ==> !OccursAt(s, p, j)
  {
    FindLastBefore(s, p, |s| + 1)
  }

  // ---------------------------------------------------------------------------
  // Splitting
  // ---------------------------------------------------------------------------

  /**
   * `s.rsplit(sep, 1)`: `[s]` when `sep` does not occur, otherwise the text
   * before and the text after the rightmost occurrence. Python refuses an
   * empty separator; every call site passes a literal one.
   */
  function RSplit1(s: string, sep: string): (r: seq<string>)
    requires |sep| > 0
    ensures 1 <= |r| <= 2
    ensures |r| == 1 <==> !Contains(s, sep)
    ensures |r| == 1 ==> r[0] == s
    ensures |r| == 2 ==> s == r[0] + sep + r[1]
    ensures |r| == 2 ==> forall j :: |r[0]| < j ==> !OccursAt(s, sep, j)
  {
    match RFind(s, sep)
    case None => [s]
    case Some(k) =>
      assert s == s[..k] + sep + s[k + |sep|..];
      [s[..k], s[k + |sep|..]]
  }

  /** `rsplit(sep, 1)` of `a + sep + b` is `[a, b]` when the last character of `sep` is not in `b`. */
  lemma RSplitAtLast(a: string, sep: string, b: string)
    requires |sep| > 0
    requires sep[|sep| - 1] !in b
    ensures RSplit1(a + sep + b, sep) == [a, b]
  {
    var s := a + sep + b;
    assert OccursAt(s, sep, |a|) by { assert s[|a|..|a| + |sep|] == sep; }
    assert Contains(s, sep);
    var r := RSplit1(s, sep);
    forall j | |a| < j ensures !OccursAt(s, sep, j) {
      if j + |sep| <= |s| {
        var e := j + |sep| - 1;
        assert s[e] == b[e - |a| - |sep|];
        assert s[j..j + |sep|][|sep| - 1] == s[e];
      }
    }
    assert |r[0]| == |a| by {
      assert OccursAt(s, sep, |r[0]|) by { assert s[|r[0]|..|r[0]| + |sep|] == sep; }
    }
    assert r[0] == s[..|a|] == a;
    assert r[1] == s[|a| + |sep|..] == b;
  }

  /** `c in s` is the same as the one-character string `[c]` occurring in `s`. */
  lemma ContainsChar(s: string, c: char)
    ensures Contains(s, [c]) <==> c in s
  {
    if c in s {
      var j :| 0 <= j < |s| && s[j] == c;
      assert s[j..j + 1] == [c];
      assert OccursAt(s, [c], j);
    }
    if Contains(s, [c]) {
      var j :| 0 <= j <= |s| && OccursAt(s, [c], j);
      assert s[j] == s[j..j + 1][0];
    }
  }

  /**
   * `rsplit(sep, 1)` of `a + sep + b` is `[a, b]` when no occurrence of `sep`
   * starts after the one at `|a|`, that is, none lies within `sep[1..] + b`.
   */
  lemma RSplitAfterLast(a: string, sep: string, b: string)
    requires |sep| > 0
    requires !Contains(sep[1..] + b, sep)
    ensures RSplit1(a + sep + b, sep) == [a, b]
  {
    var s := a + sep + b;
    assert OccursAt(s, sep, |a|) by { assert s[|a|..|a| + |sep|] == sep; }
    assert Contains(s, sep);
    var tail := sep[1..] + b;
    assert s[|a| + 1..] == tail;
    forall j | |a| < j ensures !OccursAt(s, sep, j) {
      if OccursAt(s, sep, j) {
        var q := j - |a| - 1;
        assert 0 <= q && q + |sep| <= |tail|;
        assert tail[q..q + |sep|] == s[j..j + |sep|];
        assert OccursAt(tail, sep, q);
        assert Contains(tail, sep);
      }
    }
    var r := RSplit1(s, sep);
    assert |r[0]| == |a| by {
      assert OccursAt(s, sep, |r[0]|) by { assert s[|r[0]|..|r[0]| + |sep|] == sep; }
    }
    assert r[0] == s[..|a|] == a;
    assert r[1] == s[|a| + |sep|..] == b;
  }

  /** An occurrence of `p` in `x + b` lies in `b` when the first character of `p` is not in `x`. */
  lemma ContainsPastPrefix(x: string, b: string, p: string)
    requires |p| > 0 && p[0] !in x
    requires Contains(x + b, p)
    ensures Contains(b, p)
  {
    var s := x + b;
    var j :| 0 <= j <= |s| && OccursAt(s, p, j);
    assert s[j] == p[0] by { assert s[j..j + |p|][0] == s[j]; }
    assert j >= |x|;
    assert s[j..j + |p|] == b[j - |x|..j - |x| + |p|];
    assert OccursAt(b, p, j - |x|);
  }

  /**
   * `s.split(sep, 1)[1]`: the text after the FIRST occurrence of `sep`, or
   * None where Python raises IndexError because `sep` does not occur.
   */
  function AfterFirst(s: string, sep: string): (r: Option<string>)
    requires |sep| > 0
    ensures r.None? <==> !Contains(s, sep)
    ensures r.Some? ==> exists k :: OccursAt(s, sep, k) && r.value == s[k + |sep|..]
                                  && forall j :: 0 <= j < k ==> !OccursAt(s, sep, j)
  {
    match Find(s, sep)
    case None => None
    case Some(k) => Some(s[k + |sep|..])
  }

  /** `c.join(fields)`. */
  function JoinWith(fields: seq<string>, c: char): string {
    if |fields| <= 1 then (if fields == [] then [] else fields[0])
    else fields[0] + [c] + JoinWith(fields[1..], c)
  }

  /** `s.split(c)` for a one-character separator: every field, in order; the fields joined by `c` give `s` back. */
  function Split(s: string, c: char): (r: seq<string>)
    decreases |s|
    ensures |r| >= 1
    ensures forall i :: 0 <= i < |r| ==> c !in r[i]
    ensures JoinWith(r, c) == s
  {
    match Find(s, [c])
    case None =>
      NoSeparatorBefore(s, c, |s|);
      [s]
    case Some(k) =>
      NoSeparatorBefore(s, c, k);
      var rest := Split(s[k + 1..], c);
      JoinAfterField(s, c, k, rest);
      [s[..k]] + rest
  }

  /** No one-character occurrence of `c` before `k` means no `c` before `k`. */
  lemma NoSeparatorBefore(s: string, c: char, k: nat)
    requires k <= |s|
    requires forall j :: 0 <= j < k ==> !OccursAt(s, [c], j)
    ensures forall j :: 0 <= j < k ==> s[j] != c
  {
    forall j | 0 <= j < k
      ensures s[j] != c
    {
      assert !OccursAt(s, [c], j);
      assert s[j..j + 1] == [s[j]];
    }
  }

  /** Joining the field before the separator at `k` with the rejoined rest gives `s`. */
  lemma JoinAfterField(s: string, c: char, k: nat, rest: seq<string>)
    requires k < |s| && s[k] == c
    requires |rest| >= 1 && JoinWith(rest, c) == s[k + 1..]
    ensures JoinWith([s[..k]] + rest, c) == s
  {
    var r := [s[..k]] + rest;
    assert r[0] == s[..k] && r[1..] == rest;
    assert s == s[..k] + [c] + s[k + 1..];
  }

  // ---------------------------------------------------------------------------
  // Stripping
  // ---------------------------------------------------------------------------

  /** `s.lstrip(chars)`. */
  function LStripChars(s: string, chars: set<char>): (r: string)
    ensures |r| <= |s| && r == s[|s| - |r|..]
    ensures |r| > 0 ==> r[0] !in chars
    ensures forall i :: 0 <= i < |s| - |r| ==> s[i] in chars
  {
    if |s| > 0 && s[0] in chars then LStripChars(s[1..], chars) else s
  }

  /** `s.rstrip(chars)`. */
  function RStripChars(s: string, chars: set<char>): (r: string)
    ensures |r| <= |s| && r == s[..|r|]
    ensures |r| > 0 ==> r[|r| - 1] !in chars
    ensures forall i :: |r| <= i < |s| ==> s[i] in chars
  {
    if |s| > 0 && s[|s| - 1] in chars then RStripChars(s[..|s| - 1], chars) else s
  }

  /** `lstrip(chars)` removes a prefix made of `chars` and stops at the first character outside them. */
  lemma {:induction false} LStripCharsPrefix(p: string, s: string, chars: set<char>)
    requires forall i :: 0 <= i < |p| ==> p[i] in chars
    requires |s| > 0 && s[0] !in chars
    ensures LStripChars(p + s, chars) == s
    decreases |p|
  {
    if p == [] {
      assert p + s == s;
    } else {
      assert (p + s)[1..] == p[1..] + s;
      LStripCharsPrefix(p[1..], s, chars);
    }
  }

  /** `rstrip(chars)` removes a suffix made of `chars` and stops at the last character outside them. */
  lemma {:induction false} RStripCharsSuffix(s: string, p: string, chars: set<char>)
    requires forall i :: 0 <= i < |p| ==> p[i] in chars
    requires |s| > 0 && s[|s| - 1] !in chars
    ensures RStripChars(s + p, chars) == s
    decreases |p|
  {
    if p == [] {
      assert s + p == s;
    } else {
      var init := p[..|p| - 1];
      assert (s + p)[..|s + p| - 1] == s + init;
      RStripCharsSuffix(s, init, chars);
    }
  }

  /** `s.lstrip()`. */
  function LStrip(s: string): (r: string)
    ensures |r| <= |s| && r == s[|s| - |r|..]
    ensures |r| > 0 ==> !IsSpace(r[0])
    ensures forall i :: 0 <= i < |s| - |r| ==> IsSpace(s[i])
  {
    if |s| > 0 && IsSpace(s[0]) then LStrip(s[1..]) else s
  }

  /** `s.rstrip()`. */
  function RStrip(s: string): (r: string)
    ensures |r| <= |s| && r == s[..|r|]
    ensures |r| > 0 ==> !IsSpace(r[|r| - 1])
    ensures forall i :: |r| <= i < |s| ==> IsSpace(s[i])
  {
    if |s| > 0 && IsSpace(s[|s| - 1]) then RStrip(s[..|s| - 1]) else s
  }

  /** Trailing whitespace after a last character that is not whitespace is exactly what `rstrip` removes. */
  lemma {:induction false} RStripTrailingSpace(x: string, trail: string)
    requires |x| > 0 && !IsSpace(x[|x| - 1])
    requires forall i :: 0 <= i < |trail| ==> IsSpace(trail[i])
    ensures RStrip(x + trail) == x
    decreases |trail|
  {
    if trail == [] {
      assert x + trail == x;
    } else {
      var init := trail[..|trail| - 1];
      assert (x + trail)[..|x + trail| - 1] == x + init;
      RStripTrailingSpace(x, init);
    }
  }

  /** The number of whitespace characters `s` starts with. */
  function LeadingSpace(s: string): (n: nat)
    ensures n <= |s|
    ensures forall i :: 0 <= i < n ==> IsSpace(s[i])
    ensures n < |s| ==> !IsSpace(s[n])
  {
    |s| - |LStrip(s)|
  }

  /** `s.strip()`. */
  function Strip(s: string): (r: string)
    ensures |r| <= |s|
    ensures |r| > 0 ==> !IsSpace(r[0]) && !IsSpace(r[|r| - 1])
  {
    RStrip(LStrip(s))
  }

  /**
   * `strip()` keeps the slice of `s` left once all its leading whitespace and
   * all its trailing whitespace are cut off.
   */
  lemma StripCutsSpace(s: string)
    ensures var r, lo := Strip(s), LeadingSpace(s);
            lo + |r| <= |s| && r == s[lo..lo + |r|]
            && (forall i :: lo + |r| <= i < |s| ==> IsSpace(s[i]))
            && (|r| > 0 ==> !IsSpace(r[0]) && !IsSpace(r[|r| - 1]))
  {
    StripIsSlice(s);
    StripCutsTrailingSpace(s);
  }

  /** What `strip()` keeps starts right after the leading whitespace. */
  lemma StripIsSlice(s: string)
    ensures LeadingSpace(s) + |Strip(s)| <= |s|
    ensures Strip(s) == s[LeadingSpace(s)..LeadingSpace(s) + |Strip(s)|]
  {
    var l := LStrip(s);
    var lo, k := LeadingSpace(s), |RStrip(l)|;
    assert l == s[lo..];
    assert RStrip(l) == l[..k];
    SliceOfSuffix(s, lo, k);
  }

  /** A prefix of the suffix of `s` starting at `lo` is the slice of `s` from `lo`. */
  lemma SliceOfSuffix(s: string, lo: nat, k: nat)
    requires lo + k <= |s|
    ensures s[lo..][..k] == s[lo..lo + k]
  {
  }

  /** Everything `strip()` cuts off after what it keeps is whitespace. */
  lemma StripCutsTrailingSpace(s: string)
    ensures LeadingSpace(s) + |Strip(s)| <= |s|
    ensures forall i :: LeadingSpace(s) + |Strip(s)| <= i < |s| ==> IsSpace(s[i])
  {
    var l, lo := LStrip(s), LeadingSpace(s);
    forall i | lo + |RStrip(l)| <= i < |s|
      ensures IsSpace(s[i])
    {
      assert s[i] == l[i - lo];
    }
  }


  // ---------------------------------------------------------------------------
  // Replacement
  // ---------------------------------------------------------------------------

  /** `s.replace("", rep)`: `rep` before every character and once at the end. */
  function InsertEverywhere(s: string, rep: string): (r: string)
    ensures |r| == |s| + (|s| + 1) * |rep|
  {
    if s == [] then rep else rep + [s[0]] + InsertEverywhere(s[1..], rep)
  }

  /**
   * `s.replace(pat, rep)`: every non-overlapping occurrence of `pat`, found
   * scanning left to right, is replaced by `rep`.
   */
  function Replace(s: string, pat: string, rep: string): string
    decreases |s|
  {
    if |pat| == 0 then InsertEverywhere(s, rep)
    else if |s| < |pat| then s
    else if s[..|pat|] == pat then rep + Replace(s[|pat|..], pat, rep)
    else [s[0]] + Replace(s[1..], pat, rep)
  }

  /** An `pat` that does not occur is not replaced: the string comes back unchanged. */
  lemma {:induction false} ReplaceAbsent(s: string, pat: string, rep: string)
    requires |pat| > 0
    requires forall j :: 0 <= j ==> !OccursAt(s, pat, j)
    ensures Replace(s, pat, rep) == s
    decreases |s|
  {
    if |s| >= |pat| {
      assert !OccursAt(s, pat, 0);
      forall j | 0 <= j ensures !OccursAt(s[1..], pat, j) {
        OccursAtTail(s, pat, j);
      }
      ReplaceAbsent(s[1..], pat, rep);
      assert [s[0]] + s[1..] == s;
    }
  }

  /** An occurrence at the front is replaced and the scan resumes after it. */
  lemma ReplaceAtFront(s: string, pat: string, rep: string)
    requires |pat| > 0 && OccursAt(s, pat, 0)
    ensures Replace(s, pat, rep) == rep + Replace(s[|pat|..], pat, rep)
  {
    assert s[..|pat|] == s[0..|pat|];
  }

  /** A front that is not an occurrence keeps its first character. */
  lemma ReplaceSkipFront(s: string, pat: string, rep: string)
    requires |pat| > 0 && |s| > 0 && !OccursAt(s, pat, 0)
    ensures Replace(s, pat, rep) == [s[0]] + Replace(s[1..], pat, rep)
  {
    if |s| >= |pat| {
      assert s[..|pat|] == s[0..|pat|];
    } else {
      assert [s[0]] + s[1..] == s;
    }
  }

  /**
   * Text in front of which no occurrence starts is kept as it is, and the
   * scan goes on with what follows it.
   */
  lemma {:induction false} ReplaceAfterClean(x: string, y: string, pat: string, rep: string)
    requires |pat| > 0
    requires forall j :: 0 <= j < |x| ==> !OccursAt(x + y, pat, j)
    ensures Replace(x + y, pat, rep) == x + Replace(y, pat, rep)
    decreases |x|
  {
    if x == [] {
      assert x + y == y;
    } else {
      CleanTail(x, y, pat);
      ReplaceSkipFront(x + y, pat, rep);
      ReplaceAfterClean(x[1..], y, pat, rep);
      AppendAssoc([x[0]], x[1..], Replace(y, pat, rep));
      assert [x[0]] + x[1..] == x;
    }
  }

  /** No occurrence in front of a non-empty `x` means none in front of `x[1..]`. */
  lemma CleanTail(x: string, y: string, pat: string)
    requires |x| > 0
    requires forall j :: 0 <= j < |x| ==> !OccursAt(x + y, pat, j)
    ensures !OccursAt(x + y, pat, 0) && (x + y)[0] == x[0] && (x + y)[1..] == x[1..] + y
    ensures forall j :: 0 <= j < |x| - 1 ==> !OccursAt(x[1..] + y, pat, j)
  {
    var s := x + y;
    assert s[1..] == x[1..] + y;
    forall j | 0 <= j < |x| - 1
      ensures !OccursAt(x[1..] + y, pat, j)
    {
      OccursAtTail(s, pat, j);
    }
  }

  /** Before the first occurrence at or after 0, the text is kept and the scan resumes at `k`. */
  lemma ReplaceSplit(s: string, pat: string, rep: string, k: nat)
    requires |pat| > 0 && k <= |s|
    requires forall j :: 0 <= j < k ==> !OccursAt(s, pat, j)
    ensures Replace(s, pat, rep) == s[..k] + Replace(s[k..], pat, rep)
  {
    var x, y := s[..k], s[k..];
    assert x + y == s;
    ReplaceAfterClean(x, y, pat, rep);
  }

  /**
   * Replacement works left to right: everything before the first occurrence
   * is kept, that occurrence becomes `rep`, and the scan resumes right after it.
   */
  lemma ReplaceFirst(s: string, pat: string, rep: string, k: nat)
    requires |pat| > 0
    requires OccursAt(s, pat, k)
    requires forall j :: 0 <= j < k ==> !OccursAt(s, pat, j)
    ensures Replace(s, pat, rep) == s[..k] + rep + Replace(s[k + |pat|..], pat, rep)
  {
    ReplaceSplit(s, pat, rep, k);
    OccursAtDrop(s, pat, k);
    ReplaceAtFront(s[k..], pat, rep);
    AppendAssoc(s[..k], rep, Replace(s[k + |pat|..], pat, rep));
  }

  /** Concatenation is associative; stated once so proofs need not rediscover it. */
  lemma AppendAssoc(a: string, b: string, c: string)
    ensures a + (b + c) == a + b + c
  {
  }

  /** An occurrence at `k` is one at the front of `s[k..]`, and what follows it is the same. */
  lemma OccursAtDrop(s: string, p: string, k: nat)
    requires OccursAt(s, p, k)
    ensures OccursAt(s[k..], p, 0)
    ensures s[k..][|p|..] == s[k + |p|..]
  {
    assert s[k..][..|p|] == s[k..k + |p|];
  }

  /** `p not in s` rules out an occurrence at every index. */
  lemma NoOccurrence(s: string, p: string)
    requires !Contains(s, p)
    ensures forall j :: 0 <= j ==> !OccursAt(s, p, j)
  {
    forall j | 0 <= j ensures !OccursAt(s, p, j) {
      if j > |s| {
        assert !(j + |p| <= |s|);
      }
    }
  }

  /** An occurrence in `s[1..]` is an occurrence in `s` one position later. */
  lemma OccursAtTail(s: string, p: string, j: nat)
    requires |s| > 0
    ensures OccursAt(s[1..], p, j) == OccursAt(s, p, j + 1)
  {
    if j + 1 + |p| <= |s| {
      assert s[j + 1..j + 1 + |p|] == s[1..][j..j + |p|];
    }
  }

  /** Replacing one character by another maps the string character by character. */
  lemma {:induction false} ReplaceCharAt(s: string, a: char, b: char)
    ensures |Replace(s, [a], [b])| == |s|
    ensures forall i :: 0 <= i < |s| ==> Replace(s, [a], [b])[i] == if s[i] == a then b else s[i]
    decreases |s|
  {
    if |s| > 0 {
      ReplaceCharAt(s[1..], a, b);
      var rest := Replace(s[1..], [a], [b]);
      if s[..1] == [a] {
        assert Replace(s, [a], [b]) == [b] + rest;
      } else {
        assert Replace(s, [a], [b]) == [s[0]] + rest;
      }
    }
  }

  /** After replacing every `a` by a different `b`, no `a` is left. */
  lemma ReplaceCharRemoves(s: string, a: char, b: char)
    requires a != b
    ensures a !in Replace(s, [a], [b])
  {
    ReplaceCharAt(s, a, b);
    var r := Replace(s, [a], [b]);
    assert forall i :: 0 <= i < |r| ==> r[i] != a;
  }

  // ---------------------------------------------------------------------------
  // Integers: str() and int()
  // ---------------------------------------------------------------------------

  function DigitChar(d: nat): (c: char)
    requires d < 10
    ensures IsDigit(c)
  {
    ('0' as int + d) as char
  }

  function DigitValue(c: char): (d: nat)
    requires IsDigit(c)
    ensures d < 10
  {
    c as int - '0' as int
  }

  /** `str(n)` for a non-negative integer: its decimal digits, no leading zero. */
  function NatToString(n: nat): (r: string)
    ensures |r| > 0
    ensures forall i :: 0 <= i < |r| ==> IsDigit(r[i])
  {
    if n < 10 then [DigitChar(n)] else NatToString(n / 10) + [DigitChar(n % 10)]
  }

  /** `str(i)` for any integer. */
  function IntToString(i: int): (r: string)
    ensures |r| > 0
  {
    if i < 0 then "-" + NatToString(-i) else NatToString(i)
  }

  /** A digit string as `int()` accepts it: digits, with single underscores between digits. */
  predicate IsDigitGroup(s: string) {
    && |s| > 0 && IsDigit(s[0]) && IsDigit(s[|s| - 1])
    && (forall i :: 0 <= i < |s| ==> IsDigit(s[i]) || s[i] == '_')
    && (forall i :: 0 <= i < |s| - 1 ==> s[i] == '_' ==> s[i + 1] != '_')
  }

  /** The value of a string of digits and underscores, underscores ignored. */
  function DigitsValue(s: string): nat
    requires forall i :: 0 <= i < |s| ==> IsDigit(s[i]) || s[i] == '_'
  {
    if s == [] then 0
    else if s[|s| - 1] == '_' then DigitsValue(s[..|s| - 1])
    else DigitsValue(s[..|s| - 1]) * 10 + DigitValue(s[|s| - 1])
  }

  /**
   * `int(s)`: surrounding whitespace allowed, an optional sign, then a digit
   * group; None where Python raises ValueError.
   */
  function ParseInt(s: string): (r: Option<int>)
    ensures r.Some? ==> |Strip(s)| > 0
  {
    var t := Strip(s);
    if |t| > 0 && (t[0] == '-' || t[0] == '+') then
      var v: int := if IsDigitGroup(t[1..]) then DigitsValue(t[1..]) else 0;
      if IsDigitGroup(t[1..]) then Some(if t[0] == '-' then -v else v)
      else None
    else if IsDigitGroup(t) then Some(DigitsValue(t))
    else None
  }

  lemma {:induction false} DigitsValueOfNat(n: nat)
    ensures DigitsValue(NatToString(n)) == n
  {
    if n >= 10 {
      DigitsValueOfNat(n / 10);
      var s := NatToString(n);
      assert s[..|s| - 1] == NatToString(n / 10);
    }
  }

  /** A non-empty string of decimal digits only, such as a zero-padded field `0007`. */
  predicate IsNumeral(s: string) {
    |s| > 0 && forall i :: 0 <= i < |s| ==> IsDigit(s[i])
  }

  /** `int()` of a digit string, leading zeros included, is its decimal value. */
  lemma ParseIntOfNumeral(s: string)
    requires IsNumeral(s)
    ensures ParseInt(s) == Some(DigitsValue(s))
  {
    StripUntrimmed(s);
    assert IsDigitGroup(s);
  }

  /** A string that neither starts nor ends with whitespace is its own `strip()`. */
  lemma StripUntrimmed(s: string)
    requires |s| > 0 && !IsSpace(s[0]) && !IsSpace(s[|s| - 1])
    ensures Strip(s) == s
  {
  }

  /** `int(str(n)) == n` for `n >= 0`. */
  lemma ParseIntOfNatString(n: nat)
    ensures ParseInt(NatToString(n)) == Some(n)
  {
    var d := NatToString(n);
    DigitsValueOfNat(n);
    StripUntrimmed(d);
    assert IsDigitGroup(d);
  }

  /** `int(str(i)) == i` for `i < 0`: the sign is read back too. */
  lemma ParseIntOfNegativeString(i: int)
    requires i < 0
    ensures ParseInt(IntToString(i)) == Some(i)
  {
    var d := NatToString(-i);
    DigitsValueOfNat(-i);
    var s := "-" + d;
    assert s[0] == '-' && s[1..] == d && s[|s| - 1] == d[|d| - 1];
    StripUntrimmed(s);
    assert IsDigitGroup(d);
  }

  /** `int(str(n)) == n`: reading back a formatted integer gives the integer. */
  lemma ParseIntOfString(i: int)
    ensures ParseInt(IntToString(i)) == Some(i)
  {
    if i < 0 {
      ParseIntOfNegativeString(i);
    } else {
      ParseIntOfNatString(i);
    }
  }
}
