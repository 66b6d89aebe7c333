/** Small sequence helpers shared by the scripts' models: the list
    comprehensions `[x for x in xs if p(x)]` and the flattening of a list of
    lists that the folder loops amount to. */
module Seqs {

  /** The elements of `s` that satisfy `p`, in their original order. */
  function Filter<T>(s: seq<T>, p: T -> bool): (r: seq<T>)
    ensures |r| <= |s|
    ensures forall i :: 0 <= i < |r| ==> p(r[i])
    ensures forall i :: 0 <= i < |s| && p(s[i]) ==> s[i] in r
  {
    if s == [] then []
    else
      var rest := Filter(s[..|s| - 1], p);
      if p(s[|s| - 1]) then rest + [s[|s| - 1]] else rest
  }

  /** Every kept element is an element of the input. */
  lemma {:induction false} FilterSource<T>(s: seq<T>, p: T -> bool, j: nat)
    requires j < |Filter(s, p)|
    ensures exists k :: 0 <= k < |s| && s[k] == Filter(s, p)[j]
    decreases |s|
  {
    var init := s[..|s| - 1];
    var rest := Filter(init, p);
    if j < |rest| {
      FilterSource(init, p, j);
      var k :| 0 <= k < |init| && init[k] == rest[j];
      assert s[k] == init[k];
      assert Filter(s, p)[j] == rest[j];
    } else {
      assert Filter(s, p)[j] == s[|s| - 1];
    }
  }

  /** Dropping `i` elements and then `j - i` more drops `j`. */
  lemma DropDrop<T>(s: seq<T>, i: nat, j: nat)
    requires i <= j <= |s|
    ensures s[i..][j - i..] == s[j..]
  {
  }

  /** The last `k` elements of a suffix are the last `k` elements of the whole. */
  lemma SuffixOfSuffix<T>(s: seq<T>, t: seq<T>, k: nat)
    requires |t| <= |s| && s[|s| - |t|..] == t && k <= |t|
    ensures t[|t| - k..] == s[|s| - k..]
  {
    DropDrop(s, |s| - |t|, |s| - k);
  }

  /** The concatenation of a list of lists, in order. */
  function Flatten<T>(ss: seq<seq<T>>): seq<T>
  {
    if ss == [] then [] else Flatten(ss[..|ss| - 1]) + ss[|ss| - 1]
  }

  /** `f(x)` for each `x` of `s`, joined in order. */
  function ConcatMap<T, U>(s: seq<T>, f: T -> seq<U>): seq<U>
  {
    if s == [] then [] else ConcatMap(s[..|s| - 1], f) + f(s[|s| - 1])
  }

  /** Every element of the joined results comes from one of the inputs. */
  lemma {:induction false} ConcatMapMembers<T, U>(s: seq<T>, f: T -> seq<U>, x: U)
    requires x in ConcatMap(s, f)
    ensures exists k :: 0 <= k < |s| && x in f(s[k])
    decreases |s|
  {
    var init := s[..|s| - 1];
    if x in ConcatMap(init, f) {
      ConcatMapMembers(init, f, x);
      var k :| 0 <= k < |init| && x in f(init[k]);
      assert s[k] == init[k];
    } else {
      assert x in f(s[|s| - 1]);
    }
  }

  /** Filtering leaves nothing exactly when no element passes the test. */
  lemma FilterEmpty<T>(s: seq<T>, p: T -> bool)
    ensures Filter(s, p) == [] <==> !exists k :: 0 <= k < |s| && p(s[k])
  {
    if Filter(s, p) != [] {
      FilterSource(s, p, 0);
    }
  }

  /** Appending one list appends its elements to the flattening. */
  lemma FlattenSnoc<T>(ss: seq<seq<T>>, t: seq<T>)
    ensures Flatten(ss + [t]) == Flatten(ss) + t
  {
    assert (ss + [t])[..|ss|] == ss;
  }
}
