/** Sequence vocabulary: concatenation of a list of lists, prefix sums and
    order-preserving subsequences. */
module Sequences {
  function Flatten<T>(ss: seq<seq<T>>): (s: seq<T>) {
    if ss == [] then [] else ss[0] + Flatten(ss[1..])
  }

  lemma {:induction false} FlattenConcat<T>(a: seq<seq<T>>, b: seq<seq<T>>)
    ensures Flatten(a + b) == Flatten(a) + Flatten(b)
  {
    if a == [] {
      assert a + b == b;
    } else {
      FlattenConcat(a[1..], b);
      assert (a + b)[1..] == a[1..] + b;
      assert Flatten(a + b) == a[0] + Flatten(a[1..] + b);
      hide Flatten;
    }
  }

  lemma FlattenSnoc<T>(a: seq<seq<T>>, s: seq<T>)
    ensures Flatten(a + [s]) == Flatten(a) + s
  {
    FlattenConcat(a, [s]);
    assert Flatten([s]) == s by { assert [s][1..] == []; }
  }

  /** Dropping whole leading lists drops a prefix of the concatenation. */
  lemma FlattenDrop<T>(ss: seq<seq<T>>, k: nat)
    requires k <= |ss|
    ensures Flatten(ss) == Flatten(ss[..k]) + Flatten(ss[k..])
  {
    FlattenConcat(ss[..k], ss[k..]);
    assert ss == ss[..k] + ss[k..];
  }

  lemma {:induction false} FlattenMember<T>(ss: seq<seq<T>>, x: T)
    ensures x in Flatten(ss) <==> exists i :: 0 <= i < |ss| && x in ss[i]
  {
    if ss != [] {
      FlattenMember(ss[1..], x);
      if x in Flatten(ss[1..]) {
        var i :| 0 <= i < |ss[1..]| && x in ss[1..][i];
        assert x in ss[i + 1];
      }
      if exists i :: 0 <= i < |ss| && x in ss[i] {
        var i :| 0 <= i < |ss| && x in ss[i];
        if i > 0 {
          assert x in ss[1..][i - 1];
        }
      }
    }
  }

  lemma {:induction false} FlattenEmpties<T>(ss: seq<seq<T>>)
    requires forall i :: 0 <= i < |ss| ==> ss[i] == []
    ensures Flatten(ss) == []
  {
    if ss != [] {
      FlattenEmpties(ss[1..]);
    }
  }

  /** a can be obtained from b by deleting elements. */
  ghost predicate Subsequence<T(!new)>(a: seq<T>, b: seq<T>) {
    a == [] ||
    (b != [] &&
      ((a[0] == b[0] && Subsequence(a[1..], b[1..])) || Subsequence(a, b[1..])))
  }

  lemma {:induction false} SubsequenceReflexive<T(!new)>(a: seq<T>)
    ensures Subsequence(a, a)
  {
    if a != [] {
      SubsequenceReflexive(a[1..]);
    }
  }

  lemma {:induction false} SubsequenceTransitive<T(!new)>(a: seq<T>, b: seq<T>, c: seq<T>)
    requires Subsequence(a, b) && Subsequence(b, c)
    ensures Subsequence(a, c)
    decreases |b| + |c|
  {
    if a != [] {
      if b[0] == c[0] && Subsequence(b[1..], c[1..]) {
        if a[0] == b[0] && Subsequence(a[1..], b[1..]) {
          SubsequenceTransitive(a[1..], b[1..], c[1..]);
        } else {
          SubsequenceTransitive(a, b[1..], c[1..]);
        }
      } else {
        SubsequenceTransitive(a, b, c[1..]);
      }
    }
  }

  /** Subsequences can be put side by side. */
  lemma {:induction false} SubsequenceConcat<T(!new)>(a: seq<T>, a': seq<T>, b: seq<T>, b': seq<T>)
    requires Subsequence(a, a') && Subsequence(b, b')
    ensures Subsequence(a + b, a' + b')
    decreases |a'|
  {
    if a' == [] {
      assert a + b == b && a' + b' == b';
    } else {
      assert (a' + b')[1..] == a'[1..] + b';
      if a == [] {
        assert Subsequence(a, a'[1..]);
        SubsequenceConcat(a, a'[1..], b, b');
        assert a + b == b;
      } else if a[0] == a'[0] && Subsequence(a[1..], a'[1..]) {
        SubsequenceConcat(a[1..], a'[1..], b, b');
        assert (a + b)[1..] == a[1..] + b;
      } else {
        SubsequenceConcat(a, a'[1..], b, b');
      }
    }
  }

  /** Every suffix is a subsequence. */
  lemma {:induction false} SuffixSubsequence<T(!new)>(s: seq<T>, k: nat)
    requires k <= |s|
    ensures Subsequence(s[k..], s)
    decreases |s|
  {
    if k == 0 {
      assert s[0..] == s;
      SubsequenceReflexive(s);
    } else {
      assert s[k..] == s[1..][k - 1..];
      SuffixSubsequence(s[1..], k - 1);
    }
  }

  /** Cutting a prefix out of the middle of s leaves a subsequence of whatever
      s was a subsequence of. */
  lemma DropInMiddle<T(!new)>(a: seq<T>, b: seq<T>, k: nat, c: seq<T>, whole: seq<T>)
    requires k <= |b|
    requires Subsequence(a + b + c, whole)
    ensures Subsequence(a + b[k..] + c, whole)
  {
    SubsequenceReflexive(a);
    SubsequenceReflexive(c);
    SuffixSubsequence(b, k);
    SubsequenceConcat(a, a, b[k..], b);
    SubsequenceConcat(a + b[k..], a + b, c, c);
    SubsequenceTransitive(a + b[k..] + c, a + b + c, whole);
  }
}
