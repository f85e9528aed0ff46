/** Facts about sequences shared by the item map and the provider table. */
module Seqs {
  import opened Wrappers

  /** No element occurs twice. */
  predicate NoDup<T(==)>(s: seq<T>)
  {
    forall i, j :: 0 <= i < j < |s| ==> s[i] != s[j]
  }

  /** The elements of `s`, as a set (what a `HashSet` built from `s` holds). */
  function ToSet<T>(s: seq<T>): set<T>
  {
    set x | x in s
  }

  lemma {:induction false} ToSetSnoc<T>(s: seq<T>, x: T)
    ensures ToSet(s + [x]) == ToSet(s) + {x}
  {
    forall y ensures y in ToSet(s + [x]) <==> y in ToSet(s) + {x} {
      assert y in s + [x] <==> y in s || y == x;
    }
  }

  lemma {:induction false} ToSetCardinality<T>(s: seq<T>)
    ensures |ToSet(s)| <= |s|
  {
    if s != [] {
      var p := s[..|s| - 1];
      assert s == p + [s[|s| - 1]];
      ToSetSnoc(p, s[|s| - 1]);
      ToSetCardinality(p);
    }
  }

  /** A sequence is free of duplicates exactly when its set is as large as
      the sequence is long. */
  lemma {:induction false} NoDupIffCardinality<T>(s: seq<T>)
    ensures NoDup(s) <==> |ToSet(s)| == |s|
  {
    if s != [] {
      var p, x := s[..|s| - 1], s[|s| - 1];
      assert s == p + [x];
      ToSetSnoc(p, x);
      NoDupIffCardinality(p);
      if x in p {
        ToSetCardinality(p);
        var j :| 0 <= j < |p| && p[j] == x;
        assert s[j] == s[|s| - 1];
      } else {
        assert ToSet(s) == ToSet(p) + {x} && x !in ToSet(p);
        assert NoDup(s) <==> NoDup(p) by {
          if NoDup(p) {
            forall i, j | 0 <= i < j < |s| ensures s[i] != s[j] {
              if j == |s| - 1 { assert s[i] == p[i]; } else { assert s[i] == p[i] && s[j] == p[j]; }
            }
          }
          if NoDup(s) {
            forall i, j | 0 <= i < j < |p| ensures p[i] != p[j] {
              assert p[i] == s[i] && p[j] == s[j];
            }
          }
        }
      }
    }
  }

  /** The position of the first occurrence of `x` in `s`. */
  function FirstIndex<T(==)>(s: seq<T>, x: T): (i: nat)
    requires x in s
    ensures i < |s| && s[i] == x && x !in s[..i]
  {
    if s[0] == x then 0
    else
      assert x in s[1..] by { var j :| 0 <= j < |s| && s[j] == x; assert s[1..][j - 1] == x; }
      var i := 1 + FirstIndex(s[1..], x);
      assert s[..i] == [s[0]] + s[1..][..i - 1];
      i
  }

  /** Appending never moves the first occurrence of an element already present. */
  lemma FirstIndexSnoc<T>(s: seq<T>, y: T, x: T)
    requires x in s
    ensures x in s + [y] && FirstIndex(s + [y], x) == FirstIndex(s, x)
  {
    var i, k := FirstIndex(s, x), FirstIndex(s + [y], x);
    assert (s + [y])[i] == x;
    assert s[..i] == (s + [y])[..i];
  }

  /** The present values of `xs`, in order (`filter_map` with the identity). */
  function Somes<T>(xs: seq<Option<T>>): (r: seq<T>)
    ensures |r| <= |xs|
  {
    if xs == [] then []
    else
      Somes(xs[..|xs| - 1]) + match xs[|xs| - 1] case Some(v) => [v] case None => []
  }

  /** A value is kept exactly when some element holds it. */
  lemma {:induction false} SomesMembership<T>(xs: seq<Option<T>>)
    ensures forall v :: v in Somes(xs) <==> exists i :: 0 <= i < |xs| && xs[i] == Some(v)
  {
    if xs != [] {
      var n := |xs| - 1;
      SomesMembership(xs[..n]);
      forall v ensures v in Somes(xs) <==> exists i :: 0 <= i < |xs| && xs[i] == Some(v) {
        if v in Somes(xs[..n]) {
          var i :| 0 <= i < n && xs[..n][i] == Some(v);
          assert xs[i] == Some(v);
        }
        if exists i :: 0 <= i < |xs| && xs[i] == Some(v) {
          var i :| 0 <= i < |xs| && xs[i] == Some(v);
          if i < n { assert xs[..n][i] == Some(v); }
        }
      }
    }
  }
}
