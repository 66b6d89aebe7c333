/** The `os.path` functions the scripts call, for POSIX paths ('/' is the
    separator and '.' the extension separator): `splitext`, `basename` and
    two-argument `join`. */
module Paths {

  /** `s.rfind(c)`: the index of the last occurrence of `c`, or -1. */
  function RFind(s: string, c: char): (r: int)
    ensures -1 <= r < |s|
    ensures r >= 0 ==> s[r] == c
    ensures forall k :: r < k < |s| ==> s[k] != c
  {
    RFindBefore(s, c, |s|)
  }

  /** The last occurrence of `c` in `s[..end]`, or -1. */
  function RFindBefore(s: string, c: char, end: nat): (r: int)
    requires end <= |s|
    ensures -1 <= r < end
    ensures r >= 0 ==> s[r] == c
    ensures forall k :: r < k < end ==> s[k] != c
  {
    if end == 0 then -1
    else if s[end - 1] == c then end - 1
    else RFindBefore(s, c, end - 1)
  }

  /** An occurrence with no later occurrence is the one `rfind` finds. */
  lemma RFindAt(s: string, c: char, i: nat)
    requires i < |s| && s[i] == c
    requires forall k :: i < k < |s| ==> s[k] != c
    ensures RFind(s, c) == i
  {
  }

  /** Some character of `s[lo..hi]` is not a dot. */
  predicate HasNonDot(s: string, lo: int, hi: int)
  {
    exists k :: lo <= k < hi && 0 <= k < |s| && s[k] != '.'
  }

  /** The non-dot of `s[lo..hi]` seen from `s[lo..]`. */
  lemma HasNonDotShift(s: string, lo: nat, hi: nat)
    requires lo <= hi <= |s| && HasNonDot(s, lo, hi)
    ensures HasNonDot(s[lo..], 0, hi - lo)
  {
    var k :| lo <= k < hi && 0 <= k < |s| && s[k] != '.';
    assert s[lo..][k - lo] == s[k];
  }

  /** `os.path.splitext(p)`: the extension starts at the last dot of the last
      path component, unless only dots precede that dot in the component
      (so ".bashrc" and "..mp3" have no extension). */
  function SplitExt(p: string): (string, string)
  {
    var sep := RFind(p, '/');
    var dot := RFind(p, '.');
    if dot > sep && HasNonDot(p, sep + 1, dot) then (p[..dot], p[dot..]) else (p, "")
  }

  function Root(p: string): string { SplitExt(p).0 }

  function Ext(p: string): string { SplitExt(p).1 }

  /** Splitting loses nothing, and an extension is a dot followed by no dot
      and no separator. */
  lemma SplitExtParts(p: string)
    ensures Root(p) + Ext(p) == p
    ensures Ext(p) == [] || (Ext(p)[0] == '.' && '.' !in Ext(p)[1..] && '/' !in Ext(p))
  {
    var sep := RFind(p, '/');
    var dot := RFind(p, '.');
    if dot > sep && HasNonDot(p, sep + 1, dot) {
      assert p[..dot] + p[dot..] == p;
      var e := p[dot..];
      forall k | 0 <= k < |e| ensures e[k] != '/' && (k > 0 ==> e[k] != '.') {
        assert e[k] == p[dot + k];
      }
    }
  }

  /** A non-empty extension starts at the last dot, which lies after the last
      separator with a non-dot between them. */
  lemma ExtPosition(p: string)
    requires Ext(p) != []
    ensures var sep, dot := RFind(p, '/'), RFind(p, '.');
            sep < dot && HasNonDot(p, sep + 1, dot) && Ext(p) == p[dot..]
  {
  }

  /** A last dot after the last separator, with a non-dot between them,
      starts the extension. */
  lemma ExtAtLastDot(p: string)
    requires RFind(p, '/') < RFind(p, '.') && HasNonDot(p, RFind(p, '/') + 1, RFind(p, '.'))
    ensures Ext(p) == p[RFind(p, '.')..]
  {
  }

  /** `os.path.basename(p)`: what follows the last separator. */
  function Basename(p: string): (r: string)
    ensures forall k :: 0 <= k < |r| ==> r[k] != '/'
    ensures EndsWithPart(p, r)
    ensures |r| == |p| || p[|p| - |r| - 1] == '/'
  {
    p[RFind(p, '/') + 1..]
  }

  predicate EndsWithPart(p: string, r: string)
  {
    |r| <= |p| && p[|p| - |r|..] == r
  }

  /** `os.path.join(dir, name)`: an absolute `name` replaces `dir`; otherwise a
      separator is inserted unless `dir` is empty or already ends in one. */
  function Join(dir: string, name: string): string
  {
    if |name| > 0 && name[0] == '/' then name
    else if dir == [] || dir[|dir| - 1] == '/' then dir + name
    else dir + "/" + name
  }

  /** A relative `name` is the tail of the joined path, and `dir` its head. */
  lemma JoinParts(dir: string, name: string)
    requires name == [] || name[0] != '/'
    ensures EndsWithPart(Join(dir, name), name)
    ensures Join(dir, name)[..|Join(dir, name)| - |name|] == JoinPrefix(dir)
  {
  }

  /** What `Join(dir, _)` puts in front of a relative name. */
  function JoinPrefix(dir: string): string
  {
    if dir == [] || dir[|dir| - 1] == '/' then dir else dir + "/"
  }

  /** Joining one directory with distinct relative names gives distinct paths. */
  lemma JoinInjective(dir: string, a: string, b: string)
    requires a == [] || a[0] != '/'
    requires b == [] || b[0] != '/'
    requires Join(dir, a) == Join(dir, b)
    ensures a == b
  {
    var pre := JoinPrefix(dir);
    assert Join(dir, a) == pre + a && Join(dir, b) == pre + b;
    assert a == (pre + a)[|pre|..];
    assert b == (pre + b)[|pre|..];
  }

  /** A directory entry (a name without separators) joined under a directory
      has that entry as its base name. */
  lemma {:induction false} BasenameOfJoin(dir: string, name: string)
    requires |name| > 0 && '/' !in name
    ensures Basename(Join(dir, name)) == name
  {
    var p := Join(dir, name);
    var pre := JoinPrefix(dir);
    assert p == pre + name;
    var sep := RFind(p, '/');
    assert forall k :: |pre| <= k < |p| ==> p[k] == name[k - |pre|];
    if pre == [] {
      assert sep == -1;
    } else {
      assert p[|pre| - 1] == '/';
      assert sep == |pre| - 1;
    }
    assert p[sep + 1..] == name;
  }
}
