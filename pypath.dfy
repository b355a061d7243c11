/** POSIX `os.path.basename` and `os.path.splitext`, the two path helpers the ingest code calls. */
module PyPath {

  /** `os.path.basename(p)`: the text after the last `/`. */
  function Basename(p: string): (r: string)
    ensures forall j :: 0 <= j < |r| ==> r[j] != '/'
    ensures |r| <= |p|
  {
    if p == [] || p[|p| - 1] == '/' then [] else Basename(p[..|p| - 1]) + [p[|p| - 1]]
  }

  /**
   * The basename is the whole last component: a suffix of `p` that is either
   * all of `p` or comes right after a `/`.
   */
  lemma {:induction false} BasenameIsLastComponent(p: string)
    ensures var r := Basename(p);
            r == p[|p| - |r|..] && (|r| < |p| ==> p[|p| - |r| - 1] == '/')
    decreases |p|
  {
    if p != [] && p[|p| - 1] != '/' {
      var q := p[..|p| - 1];
      BasenameIsLastComponent(q);
      var b := Basename(q);
      assert p[|p| - |b| - 1..] == q[|q| - |b|..] + [p[|p| - 1]];
    }
  }

  /** A name without `/` is its own basename, behind any directory that ends in `/`. */
  lemma BasenameOfJoin(dir: string, name: string)
    requires dir == [] || dir[|dir| - 1] == '/'
    requires forall j :: 0 <= j < |name| ==> name[j] != '/'
    ensures Basename(dir + name) == name
  {
    var p := dir + name;
    BasenameIsLastComponent(p);
    assert p[|dir|..] == name;
  }

  /** The index of the last `.` of `s` before `upTo`, if any. */
  function LastDotBefore(s: string, upTo: nat): (r: int)
    requires upTo <= |s|
    ensures -1 <= r < upTo
    ensures r >= 0 ==> s[r] == '.'
    ensures forall j :: r < j < upTo ==> s[j] != '.'
  {
    if upTo == 0 then -1 else if s[upTo - 1] == '.' then upTo - 1 else LastDotBefore(s, upTo - 1)
  }

  /**
   * The root of `os.path.splitext(name)` for a name without `/`: the text before
   * the last `.`, unless every character before that `.` is itself a `.`
   * (a leading-dot name such as ".profile" has no extension).
   */
  function SplitExtRoot(name: string): (root: string)
    ensures |root| <= |name| && root == name[..|root|]
    ensures |root| < |name| ==> name[|root|] == '.' && '.' !in name[|root| + 1..]
    ensures |root| < |name| ==> exists i :: 0 <= i < |root| && root[i] != '.'
  {
    var d := LastDotBefore(name, |name|);
    if d > 0 && exists i :: 0 <= i < d && name[i] != '.' then name[..d] else name
  }

  /** With `stem + "." + ext`, where `ext` has no `.` and `stem` is not all dots, splitext yields `stem`. */
  lemma SplitExtOfJoin(stem: string, ext: string)
    requires '.' !in ext
    requires exists i :: 0 <= i < |stem| && stem[i] != '.'
    ensures SplitExtRoot(stem + "." + ext) == stem
  {
    var name := stem + "." + ext;
    var d := LastDotBefore(name, |name|);
    assert name[|stem|] == '.';
    assert forall j :: |stem| < j < |name| ==> name[j] == ext[j - |stem| - 1];
    assert d == |stem|;
    var i :| 0 <= i < |stem| && stem[i] != '.';
    assert name[i] != '.';
    assert name[..d] == stem;
  }

  /** A name whose characters are not `.` has no extension. */
  lemma SplitExtNoDot(name: string)
    requires '.' !in name
    ensures SplitExtRoot(name) == name
  {
    var d := LastDotBefore(name, |name|);
    assert d == -1;
  }
}
