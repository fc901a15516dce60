/**
 filepath.Dir and filepath.Base on the paths that filepath.Abs returns:
 absolute, already cleaned, with `/` as the separator.
 */
module FilePath {

  /** A cleaned absolute path, as filepath.Abs returns it: it starts with `/`,
      holds no `//`, ends in `/` only when it is the root itself, and none of
      its elements is `.` or `..`. */
  predicate IsCleanAbs(p: string) {
    && |p| >= 1 && p[0] == '/'
    && (|p| > 1 ==> p[|p| - 1] != '/')
    && (forall i :: 0 <= i < |p| - 1 ==> !(p[i] == '/' && p[i + 1] == '/'))
    && forall i :: 0 <= i < |p| && p[i] == '/' ==> !DotElementAt(p, i + 1)
  }

  /** The element that starts at index `j` of `p` is `.` or `..`. */
  predicate DotElementAt(p: string, j: nat) {
    || (j < |p| && p[j] == '.' && (j + 1 == |p| || p[j + 1] == '/'))
    || (j + 1 < |p| && p[j] == '.' && p[j + 1] == '.' && (j + 2 == |p| || p[j + 2] == '/'))
  }

  /** One path element: non-empty, free of separators, and neither `.` nor `..`. */
  predicate IsSegment(s: string) {
    |s| > 0 && '/' !in s && s != "." && s != ".."
  }

  /** The index of the last `/` in `p`. */
  function LastSlash(p: string): (i: nat)
    requires '/' in p
    ensures i < |p| && p[i] == '/'
    ensures forall j :: i < j < |p| ==> p[j] != '/'
  {
    if p[|p| - 1] == '/' then |p| - 1 else LastSlash(p[..|p| - 1])
  }

  /** filepath.Base: the last element of the path; the root's base is "/". */
  function Base(p: string): (b: string)
    requires IsCleanAbs(p)
    ensures p == "/" ==> b == "/"
    ensures p != "/" ==> IsSegment(b) && |b| < |p| && p[|p| - |b| - 1] == '/' && p[|p| - |b|..] == b
  {
    if p == "/" then "/"
    else
      var i := LastSlash(p);
      var b := p[i + 1..];
      assert forall j :: 0 <= j < |b| ==> b[j] == p[i + 1 + j];
      b
  }

  /** filepath.Dir: everything before the last element, itself a cleaned
      absolute path; the root's directory is the root. */
  function Dir(p: string): (d: string)
    requires IsCleanAbs(p)
    ensures IsCleanAbs(d)
    ensures p == "/" ==> d == "/"
    ensures p != "/" ==> |d| < |p|
  {
    if p == "/" then "/"
    else
      var i := LastSlash(p);
      if i == 0 then "/"
      else
        assert p[i - 1] != '/';
        p[..i]
  }

  /** filepath.Join of a cleaned absolute directory and one element. */
  function JoinPath(dir: string, elem: string): string {
    if dir == "/" then "/" + elem else dir + "/" + elem
  }

  /** A path other than the root is its directory joined with its base. */
  lemma DirBase(p: string)
    requires IsCleanAbs(p) && p != "/"
    ensures JoinPath(Dir(p), Base(p)) == p
  {
    var i := LastSlash(p);
    if i == 0 {
      assert p == "/" + p[1..];
    } else {
      assert p == p[..i] + "/" + p[i + 1..];
    }
  }

  /** Joining a cleaned absolute directory with an element gives a cleaned
      absolute path whose directory and base are those two again. */
  lemma BaseDirOfJoin(dir: string, elem: string)
    requires IsCleanAbs(dir) && IsSegment(elem)
    ensures IsCleanAbs(JoinPath(dir, elem))
    ensures Dir(JoinPath(dir, elem)) == dir
    ensures Base(JoinPath(dir, elem)) == elem
  {
    var p := JoinPath(dir, elem);
    var k := |p| - |elem| - 1;
    assert p[k] == '/' && p[k + 1..] == elem;
    assert forall j :: k < j < |p| ==> p[j] == elem[j - k - 1];
    assert p != "/";
    forall i | 0 <= i < |p| - 1 ensures !(p[i] == '/' && p[i + 1] == '/') {
      if i + 1 < k {
        assert p[i] == dir[i] && p[i + 1] == dir[i + 1];
      } else if i + 1 == k {
        assert p[i] == dir[|dir| - 1];
      } else if i == k {
        assert p[i + 1] == elem[0];
      } else {
        assert p[i + 1] == elem[i - k];
      }
    }
    assert IsCleanAbs(p);
    var i := LastSlash(p);
    assert i == k;
  }

  /** The worked example of a program under /opt/app/tools: its working
      directory is /opt/app/tools and its name is "worker". */
  lemma WorkerPath()
    ensures IsCleanAbs("/opt/app/tools/worker")
    ensures Dir("/opt/app/tools/worker") == "/opt/app/tools"
    ensures Base("/opt/app/tools/worker") == "worker"
  {
    assert IsCleanAbs("/opt/app/tools");
    BaseDirOfJoin("/opt/app/tools", "worker");
    assert JoinPath("/opt/app/tools", "worker") == "/opt/app/tools/worker";
  }
}
