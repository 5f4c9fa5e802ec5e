/**
 * The small part of Python's POSIX path handling and string slicing that
 * `download_skill_files` relies on: `os.path.join(output_dir, filename)`,
 * `os.path.splitext(name)` and `file_id[-8:]`.
 */
module Paths {

  predicate EndsWith(s: string, suffix: string) {
    |suffix| <= |s| && s[|s| - |suffix|..] == suffix
  }

  lemma EndsWithTransitive(s: string, t: string, u: string)
    requires EndsWith(s, t) && EndsWith(t, u)
    ensures EndsWith(s, u)
  {
    assert s[|s| - |u|..] == t[|t| - |u|..];
  }

  /** Index of the last `c` in `s`, or -1 (Python's `str.rfind`). */
  function RFind(s: string, c: char): (i: int)
    ensures -1 <= i < |s|
    ensures 0 <= i ==> s[i] == c
    ensures forall k :: i < k < |s| ==> s[k] != c
  {
    if |s| == 0 then -1
    else if s[|s| - 1] == c then |s| - 1
    else RFind(s[..|s| - 1], c)
  }

  /**
   * `posixpath.join(dir, name)`: an absolute `name` replaces `dir`; a
   * separator is inserted only when `dir` is non-empty and does not end in one.
   */
  function Join(dir: string, name: string): (path: string)
    ensures EndsWith(path, name)
    ensures |name| > 0 && name[0] == '/' ==> path == name
    ensures !(|name| > 0 && name[0] == '/') ==> |dir| <= |path| && path[..|dir|] == dir
    ensures !(|name| > 0 && name[0] == '/') ==>
      |path| == |dir| + |name| + (if dir == "" || dir[|dir| - 1] == '/' then 0 else 1)
    ensures !(|name| > 0 && name[0] == '/') && dir != "" && dir[|dir| - 1] != '/' ==> path[|dir|] == '/'
  {
    if |name| > 0 && name[0] == '/' then name
    else if dir == "" || dir[|dir| - 1] == '/' then dir + name
    else dir + "/" + name
  }

  /** `posixpath.basename`: everything after the last separator. */
  function BaseName(path: string): (b: string)
    ensures EndsWith(path, b)
    ensures forall k :: 0 <= k < |b| ==> b[k] != '/'
  {
    path[RFind(path, '/') + 1..]
  }

  /** Joining a name that holds no separator to a directory gives back that name as the base name. */
  lemma JoinBaseName(dir: string, name: string)
    requires forall k :: 0 <= k < |name| ==> name[k] != '/'
    ensures BaseName(Join(dir, name)) == name
  {
    var path := Join(dir, name);
    var i := RFind(path, '/');
    var start := |path| - |name|;
    assert path[start..] == name;
    // the separator found last is the one right before `name`, if any
    assert forall k :: start <= k < |path| ==> path[k] == name[k - start];
    assert i < start;
    if start > 0 {
      assert path[start - 1] == '/';
      assert i == start - 1;
    }
  }

  /** Some character of `p[lo..hi]` is not a dot. */
  predicate HasNonDot(p: string, lo: int, hi: int)
    requires 0 <= lo && hi <= |p|
  {
    exists k :: lo <= k < hi && p[k] != '.'
  }

  /**
   * `posixpath.splitext`: the extension starts at the last dot of the last
   * path component, unless that component consists of dots up to it.
   */
  function SplitExt(p: string): (parts: (string, string))
    ensures parts.0 + parts.1 == p
    ensures parts.1 == "" || parts.1[0] == '.'
  {
    var sepIndex := RFind(p, '/');
    var dotIndex := RFind(p, '.');
    if dotIndex > sepIndex && HasNonDot(p, sepIndex + 1, dotIndex) then
      (p[..dotIndex], p[dotIndex..])
    else
      (p, "")
  }

  /** A dot-free, separator-free, non-empty root followed by a one-dot extension splits back into the two. */
  lemma SplitExtOfRootAndExt(root: string, ext: string)
    requires |root| > 0 && forall k :: 0 <= k < |root| ==> root[k] != '.' && root[k] != '/'
    requires |ext| > 0 && ext[0] == '.'
    requires forall k :: 1 <= k < |ext| ==> ext[k] != '.' && ext[k] != '/'
    ensures SplitExt(root + ext) == (root, ext)
  {
    var p := root + ext;
    var sepIndex := RFind(p, '/');
    var dotIndex := RFind(p, '.');
    assert p[|root|] == '.';
    assert dotIndex == |root|;
    assert sepIndex == -1;
    assert p[0] == root[0];
    assert HasNonDot(p, 0, dotIndex);
    assert p[..dotIndex] == root && p[dotIndex..] == ext;
  }

  /** `s[-n:]` for a positive `n`: the last `n` characters, or all of `s` when it is shorter. */
  function LastChars(s: string, n: nat): (r: string)
    requires n > 0
    ensures |r| == if |s| < n then |s| else n
    ensures EndsWith(s, r)
  {
    if |s| < n then s else s[|s| - n..]
  }
}
