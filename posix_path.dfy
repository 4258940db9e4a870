/** The two POSIX path operations the program relies on: `os.path.basename`
    and the two-argument `os.path.join`, with `/` as the only separator. */
module PosixPath {

  const Sep := '/'

  /** `s.rfind(c)`: the index of the last occurrence of `c` in `s`, or -1. */
  function RFind(s: string, c: char): (i: int)
    ensures -1 <= i < |s|
    ensures 0 <= i ==> s[i] == c
    ensures forall j :: i < j < |s| ==> s[j] != c
  {
    if s == [] then -1
    else if s[|s| - 1] == c then |s| - 1
    else RFind(s[..|s| - 1], c)
  }

  /** `os.path.basename`: everything after the last `/`. The result is the
      longest suffix of the path that holds no `/`. */
  function Basename(path: string): (name: string)
    ensures Sep !in name
    ensures |name| <= |path| && name == path[|path| - |name|..]
    ensures |name| < |path| ==> path[|path| - |name| - 1] == Sep
  {
    path[RFind(path, Sep) + 1..]
  }

  /** A path that splits into a directory part that is empty or ends in `/`,
      and a name without `/`, has that name as its basename. */
  lemma {:induction false} BasenameOfSplit(dir: string, name: string)
    requires Sep !in name
    requires dir == [] || dir[|dir| - 1] == Sep
    ensures Basename(dir + name) == name
  {
    var path := dir + name;
    assert forall k :: |dir| <= k < |path| ==> path[k] == name[k - |dir|];
    assert dir != [] ==> path[|dir| - 1] == Sep;
  }

  /** Taking the basename twice changes nothing. */
  lemma {:induction false} BasenameIdempotent(path: string)
    ensures Basename(Basename(path)) == Basename(path)
  {
    BasenameOfSplit([], Basename(path));
  }

  /** The two-argument `os.path.join`: an absolute second part replaces the
      first; otherwise the parts are joined with one `/`, unless the first is
      empty or already ends in `/`. */
  function Join(a: string, b: string): (path: string)
    ensures |b| > 0 && b[0] == Sep ==> path == b
    ensures !(|b| > 0 && b[0] == Sep) ==>
      |a| + |b| <= |path| <= |a| + |b| + 1 && path[..|a|] == a && path[|path| - |b|..] == b
    ensures !(|b| > 0 && b[0] == Sep) ==>
      (|path| == |a| + |b| <==> a == [] || a[|a| - 1] == Sep)
    ensures |path| == |a| + |b| + 1 ==> path[|a|] == Sep
  {
    if |b| > 0 && b[0] == Sep then b
    else if a == [] || a[|a| - 1] == Sep then a + b
    else a + [Sep] + b
  }

  /** The last occurrence of `c` in `p + s` is the last one in `s`, if `s`
      holds one, and otherwise the last one in `p`. */
  lemma {:induction false} RFindAppend(p: string, s: string, c: char)
    ensures RFind(p + s, c) == if RFind(s, c) >= 0 then |p| + RFind(s, c) else RFind(p, c)
  {
    if s == [] {
      assert p + s == p;
    } else {
      assert (p + s)[..|p + s| - 1] == p + s[..|s| - 1];
      if s[|s| - 1] != c {
        RFindAppend(p, s[..|s| - 1], c);
      }
    }
  }

  /** What comes before a final `/` does not affect the basename. */
  lemma {:induction false} BasenameAfterSep(dir: string, rest: string)
    requires dir == [] || dir[|dir| - 1] == Sep
    ensures Basename(dir + rest) == Basename(rest)
  {
    RFindAppend(dir, rest, Sep);
    var path := dir + rest;
    var k := RFind(rest, Sep);
    if k >= 0 {
      assert RFind(path, Sep) == |dir| + k;
      assert path[|dir| + k + 1..] == rest[k + 1..];
    } else if dir != [] {
      assert RFind(path, Sep) == |dir| - 1;
      assert path[|dir|..] == rest;
    } else {
      assert path == rest;
    }
  }

  /** Joining a directory and a path keeps the basename of the path, so a
      file written to `join(outdir, name)` is referred to as `name`. */
  lemma {:induction false} BasenameOfJoin(a: string, b: string)
    ensures Basename(Join(a, b)) == Basename(b)
  {
    if |b| > 0 && b[0] == Sep {
    } else if a == [] || a[|a| - 1] == Sep {
      BasenameAfterSep(a, b);
    } else {
      assert Join(a, b) == (a + [Sep]) + b;
      BasenameAfterSep(a + [Sep], b);
    }
  }
}
