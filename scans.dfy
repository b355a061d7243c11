/**
 * The scan-file indexer of `als/bcs/scans.py`: where a data file names its
 * input scan file, where a scan file's motor header row is, which lines hold
 * the motor positions of one output file (sub-scan), and the table import
 * with its comment-row drop and flying-motor column name.
 */
module Scans {
  import opened Wrappers
  import opened PyStr

  // ---------------------------------------------------------------------------
  // get_scan_file_path
  // ---------------------------------------------------------------------------

  /** A path line after `From File`, as stored: trailing whitespace removed and every `\` made `/`. */
  function CleanScanPath(line: string): (path: string)
    ensures '\\' !in path
  {
    ReplaceCharRemoves(RStrip(line), '\\', '/');
    Replace(RStrip(line), "\\", "/")
  }

  /**
   * What `get_scan_file_path` returns when reading resumes at line `i`, with
   * `used` telling whether a `From File` line has been seen.
   */
  function ScanFilePathFrom(lines: seq<string>, i: nat, used: bool): (path: string)
    requires i <= |lines|
    decreases |lines| - i
    ensures '\\' !in path && path != "All Magnets"
  {
    if i == |lines| then ""
    else if StartsWith(lines[i], "From File") then ScanFilePathFrom(lines, i + 1, true)
    else if used && RStrip(lines[i]) != "" then
      if CleanScanPath(lines[i]) == "All Magnets" then ScanFilePathFrom(lines, i + 1, used)
      else CleanScanPath(lines[i])
    else if FirstIsDigit(lines[i]) then ""
    else ScanFilePathFrom(lines, i + 1, used)
  }

  /** `get_scan_file_path` over the lines of the data file; "" means the data file names no scan file. */
  method GetScanFilePath(lines: seq<string>) returns (path: string)
    ensures path == ScanFilePathFrom(lines, 0, false)
  {
    var scanFileUsed := false;
    var i := 0;
    while i < |lines|
      invariant 0 <= i <= |lines|
      invariant ScanFilePathFrom(lines, i, scanFileUsed) == ScanFilePathFrom(lines, 0, false)
    {
      var line := lines[i];
      if StartsWith(line, "From File") {
        scanFileUsed := true;
        i := i + 1;
        continue;
      }
      if scanFileUsed && RStrip(line) != "" {
        var scanFilePath := Replace(RStrip(line), "\\", "/");
        if scanFilePath == "All Magnets" {
          i := i + 1;
          continue;
        }
        return scanFilePath;
      }
      if FirstIsDigit(line) {
        return "";
      }
      i := i + 1;
    }
    return "";
  }

  /** A digit-leading line before any `From File` line ends the search with "". */
  lemma {:induction false} NoScanFileBeforeData(lines: seq<string>, i: nat, k: nat)
    requires i <= k < |lines| && FirstIsDigit(lines[k])
    requires forall j :: i <= j <= k ==> !StartsWith(lines[j], "From File")
    ensures ScanFilePathFrom(lines, i, false) == ""
    decreases k - i
  {
    if i < k {
      assert !FirstIsDigit(lines[i]) || ScanFilePathFrom(lines, i, false) == "";
      NoScanFileBeforeData(lines, i + 1, k);
    }
  }

  /** Without a `From File` line and without a digit-leading line, the file ends first and the result is "". */
  lemma {:induction false} NoScanFileAtEnd(lines: seq<string>, i: nat)
    requires i <= |lines|
    requires forall j :: i <= j < |lines| ==> !StartsWith(lines[j], "From File")
    ensures ScanFilePathFrom(lines, i, false) == ""
    decreases |lines| - i
  {
    if i < |lines| {
      NoScanFileAtEnd(lines, i + 1);
    }
  }

  /**
   * After `From File`, blank lines are passed over and the first line with
   * content is the path, unless it is `All Magnets`, which is passed over too.
   */
  lemma {:induction false} ScanFileAfterBlankLines(lines: seq<string>, i: nat, k: nat)
    requires i <= k < |lines|
    requires forall j :: i <= j < k ==> RStrip(lines[j]) == "" || CleanScanPath(lines[j]) == "All Magnets"
    requires RStrip(lines[k]) != "" && CleanScanPath(lines[k]) != "All Magnets"
    requires forall j :: i <= j <= k ==> !StartsWith(lines[j], "From File")
    ensures ScanFilePathFrom(lines, i, true) == CleanScanPath(lines[k])
    decreases k - i
  {
    if i < k {
      PassOverAfterFromFile(lines, i);
      ScanFileAfterBlankLines(lines, i + 1, k);
    } else {
      PathAfterFromFile(lines, k);
    }
  }

  /** After `From File`, the first line with content other than `All Magnets` is the path. */
  lemma PathAfterFromFile(lines: seq<string>, k: nat)
    requires k < |lines| && !StartsWith(lines[k], "From File")
    requires RStrip(lines[k]) != "" && CleanScanPath(lines[k]) != "All Magnets"
    ensures ScanFilePathFrom(lines, k, true) == CleanScanPath(lines[k])
  {
  }

  /** After `From File`, a blank line or an `All Magnets` line is passed over. */
  lemma PassOverAfterFromFile(lines: seq<string>, i: nat)
    requires i < |lines| && !StartsWith(lines[i], "From File")
    requires RStrip(lines[i]) == "" || CleanScanPath(lines[i]) == "All Magnets"
    ensures ScanFilePathFrom(lines, i, true) == ScanFilePathFrom(lines, i + 1, true)
  {
    if RStrip(lines[i]) == "" {
      BlankLineNotDigit(lines[i]);
    }
  }

  /** A line that is blank once trailing whitespace is removed does not start with a digit. */
  lemma BlankLineNotDigit(line: string)
    requires RStrip(line) == ""
    ensures !FirstIsDigit(line)
  {
    if |line| > 0 {
      assert IsSpace(line[0]);
    }
  }

  // ---------------------------------------------------------------------------
  // get_scan_header_line_number
  // ---------------------------------------------------------------------------

  /**
   * The lines that end the header search: a leading digit, a leading `file` in
   * any case, or a `-` followed by a digit.
   */
  predicate IsHeaderStop(line: string) {
    FirstIsDigit(line) || StartsWith(Lower(line), "file") || (|line| > 1 && line[0] == '-' && IsDigit(line[1]))
  }

  /** The index of the first header-ending line at or after `from`, or `|lines|` when there is none. */
  function FirstHeaderStop(lines: seq<string>, from: nat): (k: nat)
    requires from <= |lines|
    decreases |lines| - from
    ensures from <= k <= |lines|
    ensures k < |lines| ==> IsHeaderStop(lines[k])
    ensures forall j :: from <= j < k ==> !IsHeaderStop(lines[j])
  {
    if from == |lines| then from
    else if IsHeaderStop(lines[from]) then from
    else FirstHeaderStop(lines, from + 1)
  }

  /** The zero-based motor header row of a scan file: the line before the first header-ending line, or -1. */
  function ScanHeaderLine(lines: seq<string>): (h: int)
    ensures -1 <= h && (h >= 0 ==> h + 1 < |lines|)
    ensures h >= 0 ==> IsHeaderStop(lines[h + 1]) && forall j :: 0 <= j <= h ==> !IsHeaderStop(lines[j])
    ensures h == -1 <==> (|lines| == 0 || IsHeaderStop(lines[0]) || forall j :: 0 <= j < |lines| ==> !IsHeaderStop(lines[j]))
  {
    var k := FirstHeaderStop(lines, 0);
    if k < |lines| then k - 1 else -1
  }

  /** `get_scan_header_line_number` over the lines of the scan file. */
  method GetScanHeaderLineNumber(lines: seq<string>) returns (headerLinenum: int)
    ensures headerLinenum == ScanHeaderLine(lines)
  {
    var i := 0;
    while i < |lines|
      invariant 0 <= i <= |lines|
      invariant forall j :: 0 <= j < i ==> !IsHeaderStop(lines[j])
    {
      if IsHeaderStop(lines[i]) {
        headerLinenum := i - 1;
        return;
      }
      i := i + 1;
    }
    return -1;
  }

  // ---------------------------------------------------------------------------
  // get_scan_line_numbers
  // ---------------------------------------------------------------------------

  /** A line that opens the next output file's positions: it starts with `file` in any case. */
  predicate IsMarker(line: string) {
    StartsWith(Lower(line), "file")
  }

  /** The indices in `[lo, hi)` of marker lines, in increasing order. */
  function MarkersIn(lines: seq<string>, lo: nat, hi: nat): (m: seq<nat>)
    requires lo <= hi <= |lines|
    decreases hi - lo
    ensures forall t :: 0 <= t < |m| ==> lo <= m[t] < hi
  {
    if hi == lo then [] else MarkersIn(lines, lo, hi - 1) + (if IsMarker(lines[hi - 1]) then [hi - 1] else [])
  }

  /** The markers found are marker lines in range, strictly increasing, and every marker line is among them. */
  lemma MarkersInSound(lines: seq<string>, lo: nat, hi: nat)
    requires lo <= hi <= |lines|
    ensures var m := MarkersIn(lines, lo, hi);
            (forall t :: 0 <= t < |m| ==> lo <= m[t] < hi && IsMarker(lines[m[t]]))
            && (forall t, u :: 0 <= t < u < |m| ==> m[t] < m[u])
            && (forall i :: lo <= i < hi && IsMarker(lines[i]) ==> i in m)
  {
    MarkersAreMarkers(lines, lo, hi);
    MarkersIncrease(lines, lo, hi);
    MarkersComplete(lines, lo, hi);
  }

  lemma {:induction false} MarkersAreMarkers(lines: seq<string>, lo: nat, hi: nat)
    requires lo <= hi <= |lines|
    ensures forall t :: 0 <= t < |MarkersIn(lines, lo, hi)| ==> IsMarker(lines[MarkersIn(lines, lo, hi)[t]])
    decreases hi - lo
  {
    if hi > lo {
      MarkersAreMarkers(lines, lo, hi - 1);
      var p := MarkersIn(lines, lo, hi - 1);
      if IsMarker(lines[hi - 1]) {
        assert MarkersIn(lines, lo, hi) == p + [hi - 1];
      }
    }
  }

  lemma {:induction false} MarkersIncrease(lines: seq<string>, lo: nat, hi: nat)
    requires lo <= hi <= |lines|
    ensures forall t, u :: 0 <= t < u < |MarkersIn(lines, lo, hi)| ==> MarkersIn(lines, lo, hi)[t] < MarkersIn(lines, lo, hi)[u]
    decreases hi - lo
  {
    if hi > lo {
      MarkersIncrease(lines, lo, hi - 1);
      var p := MarkersIn(lines, lo, hi - 1);
      if IsMarker(lines[hi - 1]) {
        assert MarkersIn(lines, lo, hi) == p + [hi - 1];
      }
    }
  }

  lemma {:induction false} MarkersComplete(lines: seq<string>, lo: nat, hi: nat)
    requires lo <= hi <= |lines|
    ensures forall i :: lo <= i < hi && IsMarker(lines[i]) ==> i in MarkersIn(lines, lo, hi)
    decreases hi - lo
  {
    if hi > lo {
      MarkersComplete(lines, lo, hi - 1);
    }
  }

  /** The markers up to `a` are the first ones of the markers up to `b`. */
  lemma {:induction false} MarkersPrefix(lines: seq<string>, lo: nat, a: nat, b: nat)
    requires lo <= a <= b <= |lines|
    ensures MarkersIn(lines, lo, a) <= MarkersIn(lines, lo, b)
    decreases b - a
  {
    if a < b {
      MarkersPrefix(lines, lo, a, b - 1);
    }
  }

  /** No marker lies strictly between two consecutive markers. */
  lemma NoMarkerBetween(lines: seq<string>, lo: nat, hi: nat, t: nat, i: nat)
    requires lo <= hi <= |lines|
    requires t <= |MarkersIn(lines, lo, hi)|
    requires var m := MarkersIn(lines, lo, hi);
             (if t == 0 then lo else m[t - 1] + 1) <= i < (if t < |m| then m[t] else hi)
    ensures !IsMarker(lines[i])
  {
    MarkersInSound(lines, lo, hi);
  }

  /** The sub-scan `get_scan_line_numbers` looks for: `file_number or 1`. */
  function RequestedSubScan(fileNumber: Option<int>): int {
    match fileNumber
    case None => 1
    case Some(k) => if k == 0 then 1 else k
  }

  /** The markers after the header row of a scan file with a header row `h`. */
  function SubScanMarkers(lines: seq<string>, h: int): seq<nat>
    requires 0 <= h && h + 1 < |lines|
  {
    MarkersIn(lines, h + 1, |lines|)
  }

  /** The number of sub-scans: one more than the number of markers below the header. */
  function SubScanCount(lines: seq<string>): (m: int)
    ensures m >= 1
  {
    var h := ScanHeaderLine(lines);
    if h == -1 then 1 else 1 + |SubScanMarkers(lines, h)|
  }

  /** A positive multiple of `m` is at least `m`. */
  lemma {:induction false} MulAtLeast(d: int, m: int)
    requires d >= 1 && m > 0
    ensures d * m >= m
    decreases d
  {
    if d > 1 {
      MulAtLeast(d - 1, m);
      assert d * m == (d - 1) * m + m;
    }
  }

  /** Euclidean division is unique: a remainder in range is `a % m`. */
  lemma ModOfDecomposition(a: int, m: int, q: int, r: int)
    requires m > 0 && 0 <= r < m && a == q * m + r
    ensures a % m == r
  {
    var q0, r0 := a / m, a % m;
    assert a == q0 * m + r0;
    assert (q - q0) * m == r0 - r by {
      assert (q - q0) * m == q * m - q0 * m;
    }
    if q > q0 {
      MulAtLeast(q - q0, m);
    } else if q < q0 {
      MulAtLeast(q0 - q, m);
    }
  }

  /** The sub-scan number a too-large request wraps to: `k mod m`, with 0 read as `m`. */
  function Wrap(k: int, m: int): (w: int)
    requires 1 <= m < k
    ensures 1 <= w <= m
    ensures w - 1 == (k - 1) % m
  {
    var w := k % m;
    var q := k / m;
    assert k == q * m + w;
    if w == 0 then
      ModOfDecomposition(k - 1, m, q - 1, m - 1);
      m
    else
      ModOfDecomposition(k - 1, m, q, w - 1);
      w
  }

  /** The first position line of sub-scan `k`: just below the header, or just below the (k-1)-th marker. */
  function SubScanFirst(lines: seq<string>, h: int, k: int): int
    requires 0 <= h && h + 1 < |lines|
    requires 1 <= k <= 1 + |SubScanMarkers(lines, h)|
  {
    if k == 1 then h + 1 else SubScanMarkers(lines, h)[k - 2] + 1
  }

  /** Where sub-scan `k` ends (exclusive): at the k-th marker, or at the end of the file. */
  function SubScanEnd(lines: seq<string>, h: int, k: int): int
    requires 0 <= h && h + 1 < |lines|
    requires 1 <= k <= 1 + |SubScanMarkers(lines, h)|
  {
    var m := SubScanMarkers(lines, h);
    if k - 1 < |m| then m[k - 1] else |lines|
  }

  /**
   * The lines of sub-scan `k`: from its first line to the last line before its
   * end, or just its first line when nothing lies between.
   */
  function SubScanRange(lines: seq<string>, h: int, k: int): (r: (int, int))
    requires 0 <= h && h + 1 < |lines|
    requires 1 <= k <= 1 + |SubScanMarkers(lines, h)|
    ensures h + 1 <= r.0 <= r.1 <= |lines|
  {
    var first := SubScanFirst(lines, h, k);
    var end := SubScanEnd(lines, h, k);
    (first, if end > first then end - 1 else first)
  }

  /**
   * Sub-scan `k` runs from its first line up to its end, the next marker or
   * the end of the file, and holds no marker line.
   */
  lemma SubScanRangeShape(lines: seq<string>, h: int, k: int)
    requires 0 <= h && h + 1 < |lines|
    requires 1 <= k <= 1 + |SubScanMarkers(lines, h)|
    ensures var first, end := SubScanFirst(lines, h, k), SubScanEnd(lines, h, k);
            first <= end
            && SubScanRange(lines, h, k) == (first, if end > first then end - 1 else first)
            && (end == |lines| || IsMarker(lines[end]))
            && (forall i :: first <= i < end ==> !IsMarker(lines[i]))
  {
    SubScanEndsAtMarker(lines, h, k);
    SubScanHasNoMarker(lines, h, k);
  }

  /** Sub-scan `k` ends no earlier than it starts, at a marker line or at the end of the file. */
  lemma SubScanEndsAtMarker(lines: seq<string>, h: int, k: int)
    requires 0 <= h && h + 1 < |lines|
    requires 1 <= k <= 1 + |SubScanMarkers(lines, h)|
    ensures SubScanFirst(lines, h, k) <= SubScanEnd(lines, h, k)
    ensures SubScanEnd(lines, h, k) == |lines| || IsMarker(lines[SubScanEnd(lines, h, k)])
  {
    MarkersInSound(lines, h + 1, |lines|);
  }

  /** No line of sub-scan `k`, from its first line up to its end, is a marker. */
  lemma SubScanHasNoMarker(lines: seq<string>, h: int, k: int)
    requires 0 <= h && h + 1 < |lines|
    requires 1 <= k <= 1 + |SubScanMarkers(lines, h)|
    ensures forall i :: SubScanFirst(lines, h, k) <= i < SubScanEnd(lines, h, k) ==> !IsMarker(lines[i])
  {
    forall i | SubScanFirst(lines, h, k) <= i < SubScanEnd(lines, h, k) ensures !IsMarker(lines[i]) {
      NoMarkerBetween(lines, h + 1, |lines|, k - 1, i);
    }
  }

  /**
   * The zero-based first and last position lines of output file `fileNumber`:
   * (-1, -1) when the scan file has no header row or the number is below 1; a
   * number beyond the sub-scan count wraps around modulo that count.
   */
  function LineNumbersOf(lines: seq<string>, fileNumber: Option<int>): (r: (int, int))
    ensures r.0 <= r.1
    ensures r.0 == -1 <==> ScanHeaderLine(lines) == -1 || RequestedSubScan(fileNumber) < 1
    ensures r.0 == -1 ==> r == (-1, -1)
    ensures r.0 != -1 ==> ScanHeaderLine(lines) + 1 <= r.0 && r.1 <= |lines|
  {
    var h := ScanHeaderLine(lines);
    var k := RequestedSubScan(fileNumber);
    var m := SubScanCount(lines);
    if h == -1 || k < 1 then (-1, -1)
    else if k <= m then SubScanRange(lines, h, k)
    else SubScanRange(lines, h, Wrap(k, m))
  }

  /** Wrapping `k + m` lands where `k` itself, or `k` wrapped, does. */
  lemma WrapPeriodic(k: int, m: int)
    requires k >= 1 && m >= 1
    ensures Wrap(k + m, m) == if k <= m then k else Wrap(k, m)
  {
    var q := (k - 1) / m;
    assert k - 1 == q * m + (k - 1) % m;
    assert k + m - 1 == (q + 1) * m + (k - 1) % m;
    ModOfDecomposition(k + m - 1, m, q + 1, (k - 1) % m);
    if k <= m {
      ModOfDecomposition(k - 1, m, 0, k - 1);
    }
  }

  /** Requesting `k + m` gives the same lines as requesting `k`, where `m` is the sub-scan count. */
  lemma LineNumbersPeriodic(lines: seq<string>, k: int)
    requires k >= 1
    ensures LineNumbersOf(lines, Some(k + SubScanCount(lines))) == LineNumbersOf(lines, Some(k))
  {
    WrapPeriodic(k, SubScanCount(lines));
  }

  /** No file number and file number 0 both mean the first output file. */
  lemma DefaultSubScan(lines: seq<string>)
    ensures LineNumbersOf(lines, None) == LineNumbersOf(lines, Some(0)) == LineNumbersOf(lines, Some(1))
  {
  }

  /** Below the header, one more line adds that line's index to the markers when it is one. */
  lemma MarkersStep(lines: seq<string>, lo: nat, i: nat)
    requires lo <= i < |lines|
    ensures MarkersIn(lines, lo, i + 1) == MarkersIn(lines, lo, i) + (if IsMarker(lines[i]) then [i] else [])
  {
  }

  /** The markers the loop of `get_scan_line_numbers` has passed on reaching line `n`: those in `[lo, n)`. */
  function MarkersBefore(lines: seq<string>, lo: nat, n: nat): (m: seq<nat>)
    requires lo <= |lines| && n <= |lines|
    ensures forall t :: 0 <= t < |m| ==> lo <= m[t] < n
  {
    MarkersIn(lines, lo, if n <= lo then lo else n)
  }

  /**
   * The first and last lines the loop holds for sub-scan `k` on reaching line
   * `n`: (-1, -1) unless `k` is the sub-scan the loop is in.
   */
  function Tracked(lines: seq<string>, lo: nat, k: int, n: nat): (int, int)
    requires lo <= |lines| && n <= |lines|
  {
    var seen := MarkersBefore(lines, lo, n);
    if k != 1 + |seen| then (-1, -1)
    else
      var first := if k == 1 then lo else seen[k - 2] + 1;
      (first, if n > first then n - 1 else first)
  }

  /** One line below the header: a marker starts the next sub-scan, any other line extends the current one. */
  lemma TrackedStep(lines: seq<string>, lo: nat, k: int, n: nat)
    requires lo <= n < |lines|
    ensures MarkersBefore(lines, lo, n + 1)
         == MarkersBefore(lines, lo, n) + (if IsMarker(lines[n]) then [n] else [])
    ensures !IsMarker(lines[n]) && k == 1 + |MarkersBefore(lines, lo, n)| ==>
              Tracked(lines, lo, k, n + 1) == (Tracked(lines, lo, k, n).0, n as int)
    ensures !IsMarker(lines[n]) && k != 1 + |MarkersBefore(lines, lo, n)| ==>
              Tracked(lines, lo, k, n + 1) == (-1, -1)
    ensures IsMarker(lines[n]) ==>
              Tracked(lines, lo, k, n + 1)
              == if k == 2 + |MarkersBefore(lines, lo, n)| then (n + 1, n + 1) else (-1, -1)
  {
    MarkersStep(lines, lo, n);
    var seen := MarkersBefore(lines, lo, n);
    var next := MarkersBefore(lines, lo, n + 1);
    if IsMarker(lines[n]) && k == 2 + |seen| {
      assert next[k - 2] == n;
    } else if !IsMarker(lines[n]) && k == 1 + |seen| && k != 1 {
      assert next[k - 2] == seen[k - 2];
    }
  }

  /** Stopping at the marker after sub-scan `k` yields that sub-scan's range. */
  lemma RangeAtNextMarker(lines: seq<string>, h: int, k: int, i: nat)
    requires 0 <= h && h + 1 <= i < |lines| && IsMarker(lines[i])
    requires k >= 1 && |MarkersIn(lines, h + 1, i)| == k - 1
    ensures k <= 1 + |SubScanMarkers(lines, h)|
    ensures var first := if k == 1 then h + 1 else MarkersIn(lines, h + 1, i)[k - 2] + 1;
            SubScanRange(lines, h, k) == (first, if i > first then i - 1 else first)
  {
    MarkersStep(lines, h + 1, i);
    MarkersPrefix(lines, h + 1, i + 1, |lines|);
    var m := SubScanMarkers(lines, h);
    var before := MarkersIn(lines, h + 1, i);
    var upTo := MarkersIn(lines, h + 1, i + 1);
    assert upTo == before + [i];
    assert upTo == m[..k];
    assert m[k - 1] == upTo[k - 1] == i;
    assert k >= 2 ==> m[k - 2] == upTo[k - 2] == before[k - 2];
    assert SubScanEnd(lines, h, k) == i;
    assert SubScanFirst(lines, h, k) == if k == 1 then h + 1 else before[k - 2] + 1;
  }

  /** Reaching the end of the file in the last sub-scan yields that sub-scan's range. */
  lemma RangeAtEnd(lines: seq<string>, h: int, k: int)
    requires 0 <= h && h + 1 < |lines|
    requires k == 1 + |SubScanMarkers(lines, h)|
    ensures var first := if k == 1 then h + 1 else SubScanMarkers(lines, h)[k - 2] + 1;
            SubScanRange(lines, h, k) == (first, if |lines| > first then |lines| - 1 else first)
  {
  }

  /** How the specification reads for a file with a header row and a request of at least 1. */
  lemma LineNumbersCases(lines: seq<string>, fileNumber: Option<int>)
    requires ScanHeaderLine(lines) != -1 && RequestedSubScan(fileNumber) >= 1
    ensures var h, k, m := ScanHeaderLine(lines), RequestedSubScan(fileNumber), SubScanCount(lines);
            m == 1 + |SubScanMarkers(lines, h)|
            && LineNumbersOf(lines, fileNumber) == if k <= m then SubScanRange(lines, h, k) else SubScanRange(lines, h, Wrap(k, m))
  {
  }

  /** A request beyond the last sub-scan is answered by the wrapped request, which does not wrap again. */
  lemma WrappedRequestMeetsSpec(lines: seq<string>, fileNumber: Option<int>, w: int)
    requires ScanHeaderLine(lines) >= 0 && RequestedSubScan(fileNumber) > SubScanCount(lines)
    requires w == Wrap(RequestedSubScan(fileNumber), SubScanCount(lines))
    ensures RequestedSubScan(Some(w)) == w <= SubScanCount(lines)
    ensures LineNumbersOf(lines, fileNumber) == LineNumbersOf(lines, Some(w))
  {
    LineNumbersCases(lines, fileNumber);
    LineNumbersCases(lines, Some(w));
  }

  /**
   * The loop of `get_scan_line_numbers` over the lines below header row `h`,
   * looking for sub-scan `k`: `early` when it returns at the marker that
   * closes sub-scan `k`, and otherwise the number of sub-scans it counted.
   */
  method ScanForSubScan(lines: seq<string>, h: nat, k: int)
    returns (early: bool, outputFileNumber: int, firstLine: int, lastLine: int)
    requires h + 1 < |lines|
    ensures early && k < 1 ==> (firstLine, lastLine) == (-1, -1)
    ensures early && k >= 1 ==>
              k <= 1 + |SubScanMarkers(lines, h)| && (firstLine, lastLine) == SubScanRange(lines, h, k)
    ensures !early ==> outputFileNumber == 1 + |SubScanMarkers(lines, h)|
    ensures !early && k >= 1 ==> k >= outputFileNumber
    ensures !early && k == outputFileNumber ==> (firstLine, lastLine) == SubScanRange(lines, h, k)
    ensures !early && k < 1 ==> (firstLine, lastLine) == (-1, -1)
  {
    early := false;
    firstLine, lastLine := -1, -1;
    outputFileNumber := 1;
    if outputFileNumber == k {
      firstLine, lastLine := h + 1, h + 1;
    }
    ghost var lo := h + 1;
    var linenum := 0;
    while linenum < |lines|
      invariant 0 <= linenum <= |lines|
      invariant outputFileNumber == 1 + |MarkersBefore(lines, lo, linenum)|
      invariant k >= 1 ==> k >= outputFileNumber
      invariant (firstLine, lastLine) == Tracked(lines, lo, k, linenum)
    {
      if linenum <= h {
        linenum := linenum + 1;
        continue;
      }
      TrackedStep(lines, lo, k, linenum);
      if IsMarker(lines[linenum]) {
        outputFileNumber := outputFileNumber + 1;
        if outputFileNumber == k {
          firstLine, lastLine := linenum + 1, linenum + 1;
        } else if outputFileNumber > k {
          ReturnAtMarker(lines, h, k, linenum, outputFileNumber, firstLine, lastLine);
          early := true;
          return;
        }
      } else if outputFileNumber == k {
        lastLine := linenum;
      }
      linenum := linenum + 1;
    }
    LoopEndMeetsSpec(lines, h, k, outputFileNumber, firstLine, lastLine);
  }

  /** The early return at the marker that closes sub-scan `k` holds that sub-scan's range. */
  lemma ReturnAtMarker(lines: seq<string>, h: nat, k: int, i: nat, outputFileNumber: int, firstLine: int, lastLine: int)
    requires h + 1 <= i < |lines| && IsMarker(lines[i])
    requires outputFileNumber == 2 + |MarkersBefore(lines, h + 1, i)| && outputFileNumber > k
    requires k >= 1 ==> k >= outputFileNumber - 1
    requires (firstLine, lastLine) == Tracked(lines, h + 1, k, i)
    ensures k < 1 ==> (firstLine, lastLine) == (-1, -1)
    ensures k >= 1 ==> k <= 1 + |SubScanMarkers(lines, h)| && (firstLine, lastLine) == SubScanRange(lines, h, k)
  {
    if k >= 1 {
      RangeAtNextMarker(lines, h, k, i);
    }
  }

  /** Running off the end of the file, the loop has counted every sub-scan and holds the last one's range. */
  lemma LoopEndMeetsSpec(lines: seq<string>, h: nat, k: int, outputFileNumber: int, firstLine: int, lastLine: int)
    requires h + 1 < |lines|
    requires outputFileNumber == 1 + |MarkersBefore(lines, h + 1, |lines|)|
    requires (firstLine, lastLine) == Tracked(lines, h + 1, k, |lines|)
    ensures outputFileNumber == 1 + |SubScanMarkers(lines, h)|
    ensures k == outputFileNumber ==> (firstLine, lastLine) == SubScanRange(lines, h, k)
    ensures k < 1 ==> (firstLine, lastLine) == (-1, -1)
  {
    if k == outputFileNumber {
      RangeAtEnd(lines, h, k);
    }
  }

  /**
   * `get_scan_line_numbers`: the header row, then the loop that counts markers
   * and returns early at the marker past the requested output file, and, when
   * the request is beyond the last output file, one recursive call with the
   * wrapped number.
   */
  method GetScanLineNumbers(lines: seq<string>, fileNumber: Option<int>) returns (firstLine: int, lastLine: int)
    ensures (firstLine, lastLine) == LineNumbersOf(lines, fileNumber)
    decreases if RequestedSubScan(fileNumber) > SubScanCount(lines) then 1 else 0
  {
    var headerLinenum := GetScanHeaderLineNumber(lines);
    if headerLinenum == -1 {
      return -1, -1;
    }
    var fileNo := RequestedSubScan(fileNumber);
    var early, outputFileNumber;
    early, outputFileNumber, firstLine, lastLine := ScanForSubScan(lines, headerLinenum, fileNo);
    if fileNo >= 1 {
      LineNumbersCases(lines, fileNumber);
    }
    if early {
      return;
    }
    var maxFileNumber := outputFileNumber;
    if fileNo > maxFileNumber {
      fileNo := Wrap(fileNo, maxFileNumber);
      WrappedRequestMeetsSpec(lines, fileNumber, fileNo);
      firstLine, lastLine := GetScanLineNumbers(lines, Some(fileNo));
    }
  }

  // ---------------------------------------------------------------------------
  // Flying-motor name (import_scan_file and is_flying_scan)
  // ---------------------------------------------------------------------------

  /** The first line of the scan file as `readline()` returns it; "" for an empty file. */
  function FirstLine(lines: seq<string>): string {
    if |lines| == 0 then "" else lines[0]
  }

  /** The rstripped first line with the keyword in either spelling turned into `Flying `. */
  function FlyingKeywordLine(firstLine: string): string {
    Replace(RStrip(firstLine), "flying ", "Flying ")
  }

  /**
   * The flying-motor name a scan file's first line announces: the text after
   * the last `Flying ` (or `flying `), cut before the last `(` in it, stripped.
   * None when either split finds no separator.
   */
  function FlyingMotorName(firstLine: string): (name: Option<string>)
    ensures name.Some? ==> Contains(FlyingKeywordLine(firstLine), "Flying ")
    ensures name.Some? && |name.value| > 0 ==> !IsSpace(name.value[0]) && !IsSpace(name.value[|name.value| - 1])
  {
    var parts := RSplit1(FlyingKeywordLine(firstLine), "Flying ");
    if |parts| == 1 then None
    else
      var nameParts := RSplit1(parts[1], "(");
      if |nameParts| == 1 then None else Some(Strip(nameParts[0]))
  }

  /**
   * A first line `<prefix>Flying <name>(<arguments>` with trailing whitespace
   * announces `<name>`, stripped, provided the keyword occurs only there and
   * the arguments hold no `(`.
   */
  lemma FlyingMotorNameOfHeader(prefix: string, name: string, arguments: string, trail: string)
    requires !Contains(prefix + "Flying " + (name + "(" + arguments), "flying ")
    requires !Contains(name + "(" + arguments, "Flying ")
    requires '(' !in arguments
    requires |arguments| > 0 && !IsSpace(arguments[|arguments| - 1])
    requires forall i :: 0 <= i < |trail| ==> IsSpace(trail[i])
    ensures FlyingMotorName(prefix + "Flying " + (name + "(" + arguments) + trail) == Some(Strip(name))
  {
    var rest := name + "(" + arguments;
    var line := prefix + "Flying " + rest;
    KeywordLineOfRStripped(line, trail);
    AnnouncedRest(prefix, rest);
    ContainsChar(arguments, '(');
    assert "("[1..] + arguments == arguments;
    RSplitAfterLast(name, "(", arguments);
  }

  /** Trailing whitespace goes, and a line without `flying ` keeps its keyword as it is. */
  lemma KeywordLineOfRStripped(line: string, trail: string)
    requires !Contains(line, "flying ")
    requires |line| > 0 && !IsSpace(line[|line| - 1])
    requires forall i :: 0 <= i < |trail| ==> IsSpace(trail[i])
    ensures FlyingKeywordLine(line + trail) == line
  {
    RStripTrailingSpace(line, trail);
    NoOccurrence(line, "flying ");
    ReplaceAbsent(line, "flying ", "Flying ");
  }

  /** The text after the only `Flying ` is everything behind it. */
  lemma AnnouncedRest(prefix: string, rest: string)
    requires !Contains(rest, "Flying ")
    ensures RSplit1(prefix + "Flying " + rest, "Flying ") == [prefix, rest]
  {
    if Contains("lying " + rest, "Flying ") {
      ContainsPastPrefix("lying ", rest, "Flying ");
    }
    assert "Flying "[1..] == "lying ";
    RSplitAfterLast(prefix, "Flying ", rest);
  }

  /**
   * The keyword is matched in both spellings: a first line whose one keyword is
   * `flying ` announces the same name as the line with `Flying ` in its place.
   */
  lemma FlyingKeywordEitherCase(prefix: string, rest: string)
    requires forall j :: 0 <= j < |prefix| ==> !OccursAt(prefix + "flying " + rest, "flying ", j)
    requires !Contains(rest, "flying ")
    requires !Contains(prefix + "Flying " + rest, "flying ")
    requires |rest| > 0 && !IsSpace(rest[|rest| - 1])
    ensures FlyingMotorName(prefix + "flying " + rest) == FlyingMotorName(prefix + "Flying " + rest)
  {
    var lower := prefix + "flying " + rest;
    var upper := prefix + "Flying " + rest;
    RStripTrailingSpace(lower, "");
    assert lower + "" == lower;
    assert OccursAt(lower, "flying ", |prefix|) by {
      assert lower[|prefix|..|prefix| + 7] == "flying ";
    }
    ReplaceFirst(lower, "flying ", "Flying ", |prefix|);
    assert lower[..|prefix|] == prefix;
    assert lower[|prefix| + 7..] == rest;
    NoOccurrence(rest, "flying ");
    ReplaceAbsent(rest, "flying ", "Flying ");
    assert FlyingKeywordLine(lower) == upper;
    KeywordLineOfRStripped(upper, "");
    assert upper + "" == upper;
  }

  // ---------------------------------------------------------------------------
  // Tables (pandas.read_table is a parameter)
  // ---------------------------------------------------------------------------

  /** A table as the reader delivers it: column names, and rows of cells rendered as text. */
  datatype RawTable = RawTable(columns: seq<string>, rows: seq<seq<string>>)

  /** A rectangular table: every row has one cell per column. */
  type Table = t: RawTable | forall i :: 0 <= i < |t.rows| ==> |t.rows[i]| == |t.columns| witness RawTable([], [])

  /** What `import_scan_file` asks of `pandas.read_table`: header row, rows to skip, rows to read. */
  datatype TableRequest = TableRequest(header: int, skipRows: seq<int>, nrows: int)

  /** `pandas.read_table` on the scan file: None where it raises. */
  type TableReader = (seq<string>, TableRequest) -> Option<Table>

  /** The ways importing the motor table fails. */
  datatype ScanError =
    | TableUnreadable   // read_table raised
    | NoColumns         // the table has no first column to test for comments

  /** `np.arange(lo, hi)`. */
  function IntRange(lo: int, hi: int): (r: seq<int>)
    ensures |r| == if hi > lo then hi - lo else 0
    ensures forall t :: 0 <= t < |r| ==> r[t] == lo + t
  {
    seq(if hi > lo then hi - lo else 0, t => lo + t)
  }

  /**
   * The request for output file `fileNumber`: the header row, every line between
   * it and the sub-scan's first line skipped, and the sub-scan's lines read.
   */
  function TableRequestOf(lines: seq<string>, fileNumber: Option<int>): (req: TableRequest)
    ensures var h, r := ScanHeaderLine(lines), LineNumbersOf(lines, fileNumber);
            req.header == h && req.nrows == 1 + r.1 - r.0
            && |req.skipRows| == (if r.0 > h + 1 then r.0 - h - 1 else 0)
            && (forall t :: 0 <= t < |req.skipRows| ==> req.skipRows[t] == h + 1 + t)
            && (forall t :: 0 <= t < |req.skipRows| ==> h < req.skipRows[t] < r.0)
  {
    var h := ScanHeaderLine(lines);
    var (first, last) := LineNumbersOf(lines, fileNumber);
    TableRequest(h, IntRange(h + 1, first), 1 + last - first)
  }

  /** A comment row: its first cell, stripped, starts with `#`. */
  predicate IsCommentRow(row: seq<string>) {
    |row| > 0 && StartsWith(Strip(row[0]), "#")
  }

  /** The rows that are not comment rows, in their original order. */
  function NonCommentRows(rows: seq<seq<string>>): (kept: seq<seq<string>>)
    ensures |kept| <= |rows|
    ensures forall i :: 0 <= i < |kept| ==> !IsCommentRow(kept[i])
  {
    if rows == [] then []
    else (if IsCommentRow(rows[0]) then [] else [rows[0]]) + NonCommentRows(rows[1..])
  }

  /** Every kept row is one of the rows. */
  lemma {:induction false} NonCommentRowsFrom(rows: seq<seq<string>>)
    ensures forall row :: row in NonCommentRows(rows) ==> row in rows
    decreases |rows|
  {
    if rows != [] {
      NonCommentRowsFrom(rows[1..]);
      var head := if IsCommentRow(rows[0]) then [] else [rows[0]];
      assert NonCommentRows(rows) == head + NonCommentRows(rows[1..]);
      assert rows == [rows[0]] + rows[1..];
    }
  }

  /** Rows that all have `w` cells keep `w` cells after the filter. */
  lemma NonCommentRowsWidth(rows: seq<seq<string>>, w: nat)
    requires forall i :: 0 <= i < |rows| ==> |rows[i]| == w
    ensures forall i :: 0 <= i < |NonCommentRows(rows)| ==> |NonCommentRows(rows)[i]| == w
  {
    NonCommentRowsFrom(rows);
    forall i | 0 <= i < |NonCommentRows(rows)| ensures |NonCommentRows(rows)[i]| == w {
      assert NonCommentRows(rows)[i] in rows;
    }
  }

  /** Filtering a concatenation filters each part: the kept rows stay in order. */
  lemma {:induction false} NonCommentRowsAppend(a: seq<seq<string>>, b: seq<seq<string>>)
    ensures NonCommentRows(a + b) == NonCommentRows(a) + NonCommentRows(b)
    decreases |a|
  {
    if a == [] {
      assert a + b == b;
    } else {
      assert (a + b)[0] == a[0];
      assert (a + b)[1..] == a[1..] + b;
      NonCommentRowsAppend(a[1..], b);
    }
  }

  /** Exactly the non-comment rows survive: every one of them is kept. */
  lemma {:induction false} NonCommentRowsKeepsAll(rows: seq<seq<string>>)
    requires forall i :: 0 <= i < |rows| ==> !IsCommentRow(rows[i])
    ensures NonCommentRows(rows) == rows
    decreases |rows|
  {
    if rows != [] {
      NonCommentRowsKeepsAll(rows[1..]);
      assert [rows[0]] + rows[1..] == rows;
    }
  }

  /** Dropping comment rows twice drops nothing more. */
  lemma NonCommentRowsIdempotent(rows: seq<seq<string>>)
    ensures NonCommentRows(NonCommentRows(rows)) == NonCommentRows(rows)
  {
    NonCommentRowsKeepsAll(NonCommentRows(rows));
  }

  /** The number of comment rows. */
  function CommentCount(rows: seq<seq<string>>): nat {
    if rows == [] then 0 else (if IsCommentRow(rows[0]) then 1 else 0) + CommentCount(rows[1..])
  }

  /** Exactly the comment rows are dropped: the count falls by their number. */
  lemma {:induction false} NonCommentRowsCount(rows: seq<seq<string>>)
    ensures |NonCommentRows(rows)| == |rows| - CommentCount(rows)
    decreases |rows|
  {
    if rows != [] {
      NonCommentRowsCount(rows[1..]);
    }
  }

  /** A `pandas.DataFrame` of motor positions, changed in place by `drop` and by assigning `columns`. */
  class Frame {
    var columns: seq<string>
    var rows: seq<seq<string>>

    constructor (t: Table)
      ensures columns == t.columns && rows == t.rows
    {
      columns := t.columns;
      rows := t.rows;
    }

    /** Every row has one cell per column. */
    predicate Rectangular()
      reads this
    {
      forall i :: 0 <= i < |rows| ==> |rows[i]| == |columns|
    }

    /** `df.drop(comment_indices, inplace=True)` for the rows `is_comment` flags. */
    method DropCommentRows()
      modifies this
      ensures columns == old(columns)
      ensures rows == NonCommentRows(old(rows))
      ensures old(Rectangular()) ==> Rectangular()
    {
      var all := rows;
      var kept: seq<seq<string>> := [];
      var i := 0;
      while i < |all|
        invariant 0 <= i <= |all|
        invariant columns == old(columns) && rows == all
        invariant kept == NonCommentRows(all[..i])
      {
        NonCommentRowsAppend(all[..i], [all[i]]);
        assert all[..i + 1] == all[..i] + [all[i]];
        if !IsCommentRow(all[i]) {
          kept := kept + [all[i]];
        }
        i := i + 1;
      }
      assert all[..i] == all;
      if Rectangular() {
        NonCommentRowsWidth(all, |columns|);
      }
      rows := kept;
    }

    /** `df.columns = [*df.columns[:-1], name]`: only the last column name changes. */
    method RenameLastColumn(name: string)
      requires |columns| > 0
      modifies this
      ensures columns == old(columns)[..|old(columns)| - 1] + [name]
      ensures rows == old(rows)
      ensures old(Rectangular()) ==> Rectangular()
    {
      columns := columns[..|columns| - 1] + [name];
    }
  }

  // ---------------------------------------------------------------------------
  // import_scan_file and is_flying_scan
  // ---------------------------------------------------------------------------

  /** The column names after an optional flying-motor rename of the last one. */
  function FlyingColumns(columns: seq<string>, lines: seq<string>): (r: seq<string>)
    requires |columns| > 0
    ensures |r| == |columns| && r[..|r| - 1] == columns[..|columns| - 1]
    ensures var name := FlyingMotorName(FirstLine(lines));
            r[|r| - 1] == if ScanHeaderLine(lines) > 0 && name.Some? then name.value else columns[|columns| - 1]
  {
    var name := FlyingMotorName(FirstLine(lines));
    if ScanHeaderLine(lines) > 0 && name.Some? then columns[..|columns| - 1] + [name.value] else columns
  }

  /**
   * The motor table `import_scan_file` returns for output file `fileNumber`:
   * the rows read for that sub-scan without their comment rows, and the
   * columns with the last one named after the flying motor when the first
   * line announces one.
   */
  function ImportedTable(lines: seq<string>, fileNumber: Option<int>, readTable: TableReader)
    : (r: Result<Table, ScanError>)
    ensures var read := readTable(lines, TableRequestOf(lines, fileNumber));
            (read.None? <==> r == Err(TableUnreadable))
            && (read.Some? && |read.value.columns| == 0 <==> r == Err(NoColumns))
            && (r.Ok? ==> |r.value.columns| == |read.value.columns|
                          && r.value.columns[..|r.value.columns| - 1] == read.value.columns[..|read.value.columns| - 1]
                          && r.value.rows == NonCommentRows(read.value.rows))
  {
    match readTable(lines, TableRequestOf(lines, fileNumber))
    case None => Err(TableUnreadable)
    case Some(t) =>
      if |t.columns| == 0 then Err(NoColumns)
      else
        var kept := NonCommentRows(t.rows);
        NonCommentRowsWidth(t.rows, |t.columns|);
        Ok(RawTable(FlyingColumns(t.columns, lines), kept))
  }

  /**
   * The arguments `import_scan_file` gives `read_table`: the header row, the
   * rows to skip between it and the sub-scan, and the number of rows to read.
   */
  method ScanTableRequest(lines: seq<string>, fileNumber: Option<int>)
    returns (headerLinenum: int, request: TableRequest)
    ensures headerLinenum == ScanHeaderLine(lines)
    ensures request == TableRequestOf(lines, fileNumber)
  {
    headerLinenum := GetScanHeaderLineNumber(lines);
    var firstLinenum, lastLinenum := GetScanLineNumbers(lines, fileNumber);
    var skiprows := IntRange(headerLinenum + 1, firstLinenum);
    var nrows := 1 + lastLinenum - firstLinenum;
    request := TableRequest(headerLinenum, skiprows, nrows);
  }

  /**
   * `import_scan_file`: read the sub-scan's rows, drop the comment rows in
   * place, and rename the last column when a flying motor is announced.
   */
  method ImportScanFile(lines: seq<string>, fileNumber: Option<int>, readTable: TableReader)
    returns (r: Result<Frame, ScanError>)
    ensures var spec := ImportedTable(lines, fileNumber, readTable);
            (r.Ok? <==> spec.Ok?) && (r.Err? ==> r.error == spec.error)
            && (r.Ok? ==> fresh(r.value) && r.value.columns == spec.value.columns
                          && r.value.rows == spec.value.rows && r.value.Rectangular())
  {
    var headerLinenum, request := ScanTableRequest(lines, fileNumber);
    var read := readTable(lines, request);
    ghost var spec := ImportedTable(lines, fileNumber, readTable);
    if read.None? {
      return Err(TableUnreadable);
    }
    var t := read.value;
    if |t.columns| == 0 {
      return Err(NoColumns);
    }
    assert spec == Ok(RawTable(FlyingColumns(t.columns, lines), NonCommentRows(t.rows)));
    var df := CleanedFrame(lines, headerLinenum, t);
    return Ok(df);
  }

  /**
   * The part of `import_scan_file` after the read: the frame of the table
   * read, its comment rows dropped in place, and its last column renamed
   * when a flying motor is announced.
   */
  method CleanedFrame(lines: seq<string>, headerLinenum: int, t: Table) returns (df: Frame)
    requires headerLinenum == ScanHeaderLine(lines) && |t.columns| > 0
    ensures fresh(df) && df.Rectangular()
    ensures df.columns == FlyingColumns(t.columns, lines) && df.rows == NonCommentRows(t.rows)
  {
    df := new Frame(t);
    df.DropCommentRows();
    if headerLinenum > 0 {
      var flyingName := FlyingMotorName(FirstLine(lines));
      if flyingName.Some? {
        df.RenameLastColumn(flyingName.value);
      }
    }
  }

  /**
   * `is_flying_scan`: the same table read (which can fail the same way), then
   * true exactly when the scan file has a header row past line 0 and its first
   * line announces a flying motor.
   */
  function IsFlyingScan(lines: seq<string>, fileNumber: Option<int>, readTable: TableReader)
    : (r: Result<bool, ScanError>)
    ensures r.Err? <==> readTable(lines, TableRequestOf(lines, fileNumber)).None?
    ensures r.Ok? ==> (r.value <==> ScanHeaderLine(lines) > 0 && FlyingMotorName(FirstLine(lines)).Some?)
  {
    match readTable(lines, TableRequestOf(lines, fileNumber))
    case None => Err(TableUnreadable)
    case Some(_) => Ok(ScanHeaderLine(lines) > 0 && FlyingMotorName(FirstLine(lines)).Some?)
  }

  /**
   * Whenever the import succeeds, `is_flying_scan` succeeds too; when it says
   * true the last column carries the flying motor's name, and otherwise the
   * columns are the ones read.
   */
  lemma FlyingScanIffRenamed(lines: seq<string>, fileNumber: Option<int>, readTable: TableReader)
    requires ImportedTable(lines, fileNumber, readTable).Ok?
    ensures IsFlyingScan(lines, fileNumber, readTable).Ok?
    ensures var t := ImportedTable(lines, fileNumber, readTable).value;
            IsFlyingScan(lines, fileNumber, readTable).value ==> t.columns[|t.columns| - 1] == FlyingMotorName(FirstLine(lines)).value
    ensures var t := ImportedTable(lines, fileNumber, readTable).value;
            !IsFlyingScan(lines, fileNumber, readTable).value ==> t.columns == readTable(lines, TableRequestOf(lines, fileNumber)).value.columns
  {
  }
}
