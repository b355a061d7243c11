/**
 * The path and date helpers of `als/bcs/find.py`: relocating a stored scan-file
 * path by ordered substring replacements, and enumerating a range of days.
 */
module Find {
  import opened PyStr

  /**
   * The replacements in the order the mapping yields them: each `(old, new)`
   * pair rewrites the result of the pairs before it.
   */
  function ReplaceAll(path: string, mapping: seq<(string, string)>): string
    decreases |mapping|
  {
    if mapping == [] then path
    else ReplaceAll(Replace(path, mapping[0].0, mapping[0].1), mapping[1..])
  }

  /** Running two mappings one after the other is running their concatenation. */
  lemma {:induction false} ReplaceAllConcat(path: string, m1: seq<(string, string)>, m2: seq<(string, string)>)
    ensures ReplaceAll(path, m1 + m2) == ReplaceAll(ReplaceAll(path, m1), m2)
    decreases |m1|
  {
    if m1 == [] {
      assert m1 + m2 == m2;
    } else {
      assert (m1 + m2)[1..] == m1[1..] + m2;
      ReplaceAllConcat(Replace(path, m1[0].0, m1[0].1), m1[1..], m2);
    }
  }

  /** A mapping none of whose (non-empty) old subpaths ever occurs leaves the path as it is. */
  lemma {:induction false} ReplaceAllAbsent(path: string, mapping: seq<(string, string)>)
    requires forall t :: 0 <= t < |mapping| ==> |mapping[t].0| > 0 && !Contains(path, mapping[t].0)
    ensures ReplaceAll(path, mapping) == path
    decreases |mapping|
  {
    if mapping != [] {
      var pat := mapping[0].0;
      forall j | 0 <= j ensures !OccursAt(path, pat, j) {
        if j <= |path| {
          assert !(0 <= j <= |path| && OccursAt(path, pat, j));
        }
      }
      ReplaceAbsent(path, pat, mapping[0].1);
      ReplaceAllAbsent(path, mapping[1..]);
    }
  }

  /**
   * `replace_subpath`: every `(old, new)` pair of the mapping, in iteration
   * order, applied with `str.replace` to the result of the pairs before it.
   */
  method ReplaceSubpath(filePath: string, mapping: seq<(string, string)>) returns (newFilePath: string)
    ensures newFilePath == ReplaceAll(filePath, mapping)
    ensures mapping == [] ==> newFilePath == filePath
  {
    newFilePath := filePath;
    var i := 0;
    while i < |mapping|
      invariant 0 <= i <= |mapping|
      invariant ReplaceAll(newFilePath, mapping[i..]) == ReplaceAll(filePath, mapping)
    {
      var (oldSubpath, newSubpath) := mapping[i];
      assert mapping[i..][1..] == mapping[i + 1..];
      newFilePath := Replace(newFilePath, oldSubpath, newSubpath);
      i := i + 1;
    }
  }

  /**
   * `daterange`: the days from `startDate` on, as day numbers, up to `endDate`
   * inclusive when `endpoint` holds and exclusive otherwise; nothing at all
   * when that count is not positive.
   */
  method DateRange(startDate: int, endDate: int, endpoint: bool) returns (days: seq<int>)
    ensures var count := endDate - startDate + (if endpoint then 1 else 0);
            |days| == if count > 0 then count else 0
    ensures forall k :: 0 <= k < |days| ==> days[k] == startDate + k
    ensures forall k :: 0 <= k < |days| ==> if endpoint then days[k] <= endDate else days[k] < endDate
  {
    var lastDay := if endpoint then 1 else 0;
    var count := endDate - startDate + lastDay;
    days := [];
    var nDays := 0;
    while nDays < count
      invariant 0 <= nDays
      invariant count > 0 ==> nDays <= count
      invariant count <= 0 ==> nDays == 0
      invariant |days| == nDays
      invariant forall k :: 0 <= k < nDays ==> days[k] == startDate + k
    {
      days := days + [startDate + nDays];
      nDays := nDays + 1;
    }
  }
}
