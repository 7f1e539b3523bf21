/** Python's filter() over a list, as a function on sequences. */
module Seqs {

  /** The elements of s for which p holds, in the order of s. */
  function Filter<T>(s: seq<T>, p: T -> bool): (r: seq<T>)
    ensures |r| <= |s|
  {
    if s == [] then []
    else if p(s[0]) then [s[0]] + Filter(s[1..], p)
    else Filter(s[1..], p)
  }

  /** What the filter keeps: the elements of s that pass, and only those. */
  lemma {:induction false} FilterMembers<T>(s: seq<T>, p: T -> bool, x: T)
    ensures x in Filter(s, p) <==> x in s && p(x)
    decreases |s|
  {
    if s != [] {
      FilterMembers(s[1..], p, x);
      assert s == [s[0]] + s[1..];
    }
  }

  /** r is obtained from s by deleting elements: the order of what remains is unchanged. */
  ghost predicate IsSubsequence<T>(r: seq<T>, s: seq<T>)
    decreases |s|
  {
    r == [] || (s != [] && ((r[0] == s[0] && IsSubsequence(r[1..], s[1..])) || IsSubsequence(r, s[1..])))
  }

  lemma {:induction false} FilterIsSubsequence<T>(s: seq<T>, p: T -> bool)
    ensures IsSubsequence(Filter(s, p), s)
    decreases |s|
  {
    if s != [] {
      FilterIsSubsequence(s[1..], p);
      if p(s[0]) {
        assert Filter(s, p)[1..] == Filter(s[1..], p);
      }
    }
  }

  /** Extending both sequences, or only the larger one, by the same element keeps the order. */
  lemma {:induction false} SubsequenceSnoc<T>(r: seq<T>, s: seq<T>, x: T)
    requires IsSubsequence(r, s)
    ensures IsSubsequence(r, s + [x]) && IsSubsequence(r + [x], s + [x])
    decreases |s|
  {
    if s == [] {
      assert r == [];
      assert ([x] + [])[1..] == [];
    } else {
      assert (s + [x])[1..] == s[1..] + [x];
      if r != [] && r[0] == s[0] && IsSubsequence(r[1..], s[1..]) {
        SubsequenceSnoc(r[1..], s[1..], x);
        assert (r + [x])[1..] == r[1..] + [x];
      } else {
        SubsequenceSnoc(r, s[1..], x);
      }
    }
  }

  /** A subsequence of a subsequence of s is a subsequence of s. */
  lemma {:induction false} SubsequenceTrans<T>(a: seq<T>, b: seq<T>, c: seq<T>)
    requires IsSubsequence(a, b) && IsSubsequence(b, c)
    ensures IsSubsequence(a, c)
    decreases |c|
  {
    if a != [] {
      if b[0] == c[0] && IsSubsequence(b[1..], c[1..]) {
        if a[0] == b[0] && IsSubsequence(a[1..], b[1..]) {
          SubsequenceTrans(a[1..], b[1..], c[1..]);
        } else {
          SubsequenceTrans(a, b[1..], c[1..]);
        }
      } else {
        SubsequenceTrans(a, b, c[1..]);
      }
    }
  }

  /** Filtering a concatenation filters each part. */
  lemma {:induction false} FilterAppend<T>(a: seq<T>, b: seq<T>, p: T -> bool)
    ensures Filter(a + b, p) == Filter(a, p) + Filter(b, p)
    decreases |a|
  {
    if a != [] {
      assert (a + b)[1..] == a[1..] + b;
      FilterAppend(a[1..], b, p);
    } else {
      assert a + b == b;
    }
  }

  /** Filtering one more element at the end. */
  lemma FilterSnoc<T>(s: seq<T>, x: T, p: T -> bool)
    ensures Filter(s + [x], p) == Filter(s, p) + (if p(x) then [x] else [])
  {
    FilterAppend(s, [x], p);
    assert Filter([x], p) == if p(x) then [x] else [];
  }

  /**
   * f(c, x) for the elements x of s for which p holds, in order: what a loop
   * that appends f(c, x) for every x passing p builds. The context c stands
   * for what the loop body reads besides x.
   */
  function KeepMap<C, T, U>(s: seq<T>, p: T -> bool, f: (C, T) -> U, c: C): (r: seq<U>)
    ensures |r| <= |s|
  {
    if s == [] then []
    else KeepMap(s[..|s| - 1], p, f, c) + (if p(s[|s| - 1]) then [f(c, s[|s| - 1])] else [])
  }

  lemma KeepMapSnoc<C, T, U>(s: seq<T>, x: T, p: T -> bool, f: (C, T) -> U, c: C)
    ensures KeepMap(s + [x], p, f, c) == KeepMap(s, p, f, c) + (if p(x) then [f(c, x)] else [])
  {
    assert (s + [x])[..|s|] == s;
  }

  /** KeepMap over one more element of a prefix: what a loop over s adds at step j. */
  lemma KeepMapPrefix<C, T, U>(s: seq<T>, j: nat, p: T -> bool, f: (C, T) -> U, c: C)
    requires j < |s|
    ensures KeepMap(s[..j + 1], p, f, c) == KeepMap(s[..j], p, f, c) + (if p(s[j]) then [f(c, s[j])] else [])
  {
    assert s[..j + 1][..j] == s[..j];
  }

  /** The prefix of every element is the whole sequence. */
  lemma KeepMapWhole<C, T, U>(s: seq<T>, p: T -> bool, f: (C, T) -> U, c: C)
    ensures KeepMap(s[..|s|], p, f, c) == KeepMap(s, p, f, c)
  {
    assert s[..|s|] == s;
  }

  /** One result per element that passes, in order: the map of the filter. */
  lemma {:induction false} KeepMapIsMapOfFilter<C, T, U>(s: seq<T>, p: T -> bool, f: (C, T) -> U, c: C)
    ensures |KeepMap(s, p, f, c)| == |Filter(s, p)|
    ensures forall i :: 0 <= i < |Filter(s, p)| ==> KeepMap(s, p, f, c)[i] == f(c, Filter(s, p)[i])
    decreases |s|
  {
    if s != [] {
      var init, last := s[..|s| - 1], s[|s| - 1];
      KeepMapIsMapOfFilter(init, p, f, c);
      assert s == init + [last];
      FilterSnoc(init, last, p);
    }
  }

  /** The set of the values f takes on the elements of s: what a loop adding f(x) to a set builds. */
  function Image<T, U>(s: seq<T>, f: T -> U): set<U> {
    if s == [] then {} else Image(s[..|s| - 1], f) + {f(s[|s| - 1])}
  }

  /** y is in the image exactly when some element maps to it. */
  lemma {:induction false} ImageMembers<T, U>(s: seq<T>, f: T -> U, y: U)
    ensures y in Image(s, f) <==> exists i :: 0 <= i < |s| && f(s[i]) == y
    decreases |s|
  {
    if s != [] {
      var init := s[..|s| - 1];
      ImageMembers(init, f, y);
      assert forall i :: 0 <= i < |init| ==> init[i] == s[i];
    }
  }

  /** The image of one more element of a prefix. */
  lemma ImagePrefix<T, U>(s: seq<T>, j: nat, f: T -> U)
    requires j < |s|
    ensures Image(s[..j + 1], f) == Image(s[..j], f) + {f(s[j])}
  {
    assert s[..j + 1][..j] == s[..j];
  }

  /** Concatenation regrouped; called where the solver would otherwise search for it. */
  lemma AppendAssoc<T>(a: seq<T>, b: seq<T>, c: seq<T>)
    ensures a + (b + c) == (a + b) + c
  {
  }

  /** A prefix one longer is the shorter prefix and the next element. */
  lemma PrefixSnoc<T>(s: seq<T>, i: nat)
    requires i < |s|
    ensures s[..i + 1] == s[..i] + [s[i]]
  {
  }

  /** The last element of a non-empty sequence. */
  function Last<T>(s: seq<T>): T
    requires s != []
  {
    s[|s| - 1]
  }

  /** The last element of x followed by rest is the last element of rest. */
  lemma LastOfCons<T>(x: T, rest: seq<T>)
    requires rest != []
    ensures Last([x] + rest) == Last(rest)
  {
  }

  /** A suffix of a suffix is a suffix. */
  lemma SuffixOfSuffix<T>(s: seq<T>, i: nat, j: nat)
    requires i <= j <= |s|
    ensures s[i..][j - i..] == s[j..]
  {
  }

  /** Past the first sequence, a concatenation is the second one. */
  lemma AppendSuffix<T>(a: seq<T>, b: seq<T>, k: nat)
    requires k <= |b|
    ensures (a + b)[|a| + k..] == b[k..]
  {
  }
}
