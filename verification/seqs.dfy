/** Facts about sequences the scheduler proofs share: distinctness, the
    first-occurrence order of a JavaScript object's keys, and how a sequence's
    length relates to the size of its set of elements. */
module Seqs {

  /** The set of elements of `s`. */
  function Elems<T>(s: seq<T>): set<T>
  {
    set x | x in s
  }

  /** The elements of a non-empty sequence: those before its last, and the last. */
  lemma ElemsLast<T>(s: seq<T>)
    requires s != []
    ensures Elems(s) == Elems(s[..|s| - 1]) + {s[|s| - 1]}
  {
    assert s == s[..|s| - 1] + [s[|s| - 1]];
  }

  /** No element of `s` occurs twice. */
  predicate Distinct<T(==)>(s: seq<T>)
  {
    forall i, j :: 0 <= i < j < |s| ==> s[i] != s[j]
  }

  /** Appending keeps a sequence repetition-free exactly when the new element is not in it. */
  lemma DistinctAppend<T>(s: seq<T>, x: T)
    ensures Distinct(s + [x]) <==> Distinct(s) && x !in s
  {
    var t := s + [x];
    if Distinct(t) {
      forall i, j | 0 <= i < j < |s| ensures s[i] != s[j] { assert s[i] == t[i] && s[j] == t[j]; }
      forall k | 0 <= k < |s| ensures s[k] != x { assert t[k] == s[k] && t[|s|] == x; }
    }
  }

  /** Both halves of a repetition-free concatenation are repetition-free and
      share no element. */
  lemma DistinctSplit<T>(a: seq<T>, b: seq<T>)
    requires Distinct(a + b)
    ensures Distinct(a) && Distinct(b)
    ensures forall x :: x in a ==> x !in b
  {
    var t := a + b;
    forall i, j | 0 <= i < j < |a| ensures a[i] != a[j] { assert a[i] == t[i] && a[j] == t[j]; }
    forall i, j | 0 <= i < j < |b| ensures b[i] != b[j] { assert b[i] == t[|a| + i] && b[j] == t[|a| + j]; }
    forall x | x in a ensures x !in b {
      var i :| 0 <= i < |a| && a[i] == x;
      forall j | 0 <= j < |b| ensures b[j] != x { assert t[i] == x && t[|a| + j] == b[j]; }
    }
  }

  /** A prefix of `s + q` stays a prefix when `q` grows at its end. */
  lemma PrefixExtend<T>(p: seq<T>, s: seq<T>, q: seq<T>, q': seq<T>)
    requires p <= s + q && q <= q'
    ensures p <= s + q'
  {
    assert q' == q + q'[|q|..];
    assert s + q' == (s + q) + q'[|q|..];
    assert (s + q') [..|p|] == (s + q)[..|p|];
  }

  /** A repetition-free sequence drawn from `r` is no longer than `r`. */
  lemma DistinctWithin<T>(s: seq<T>, r: set<T>)
    requires Distinct(s) && Elems(s) <= r
    ensures |s| <= |r|
  {
    SetCardinality(s);
    SubsetCardinality(Elems(s), r);
  }

  /** `s` with every repeated element dropped after its first occurrence: the
      order in which `Object.keys` reports keys assigned in the order of `s`. */
  function Dedup<T(==)>(s: seq<T>): (r: seq<T>)
    ensures Distinct(r)
    ensures Elems(r) == Elems(s)
    ensures |r| <= |s|
  {
    if s == [] then []
    else
      var init := Dedup(s[..|s| - 1]);
      assert Elems(s) == Elems(s[..|s| - 1]) + {s[|s| - 1]} by {
        assert s == s[..|s| - 1] + [s[|s| - 1]];
      }
      if s[|s| - 1] in init then init else init + [s[|s| - 1]]
  }

  /** A sequence is never shorter than its set of elements, and has exactly as
      many elements as its set when it has no repetition. */
  lemma {:induction false} SetCardinality<T>(s: seq<T>)
    ensures |Elems(s)| <= |s|
    ensures |Elems(s)| == |s| <==> Distinct(s)
  {
    if s != [] {
      var t := s[1..];
      SetCardinality(t);
      assert s == [s[0]] + t;
      assert Elems(s) == {s[0]} + Elems(t);
      if s[0] in t {
        assert Elems(s) == Elems(t);
        var k :| 0 <= k < |t| && t[k] == s[0];
        assert s[0] == s[k + 1];
        assert !Distinct(s);
      } else {
        assert |Elems(s)| == |Elems(t)| + 1;
        assert Distinct(s) <==> Distinct(t) by {
          if Distinct(t) {
            forall i, j | 0 <= i < j < |s| ensures s[i] != s[j] {
              if i == 0 { assert s[j] == t[j - 1]; } else { assert s[i] == t[i - 1] && s[j] == t[j - 1]; }
            }
          }
          if Distinct(s) {
            forall i, j | 0 <= i < j < |t| ensures t[i] != t[j] {
              assert t[i] == s[i + 1] && t[j] == s[j + 1];
            }
          }
        }
      }
    }
  }

  /** A repetition-free sequence holds each of its elements once. */
  lemma {:induction false} DistinctOccursOnce<T>(s: seq<T>, x: T)
    requires Distinct(s)
    ensures multiset(s)[x] == if x in s then 1 else 0
  {
    if s != [] {
      var t := s[1..];
      assert s == [s[0]] + t;
      assert Distinct(t) by {
        forall i, j | 0 <= i < j < |t| ensures t[i] != t[j] {
          assert t[i] == s[i + 1] && t[j] == s[j + 1];
        }
      }
      DistinctOccursOnce(t, x);
      assert s[0] !in t by {
        forall k | 0 <= k < |t| ensures t[k] != s[0] {
          assert t[k] == s[k + 1];
        }
      }
      assert multiset(s) == multiset{s[0]} + multiset(t);
    }
  }

  /** Two repetition-free sequences with the same elements are permutations of
      each other. */
  lemma DistinctSameSetIsPermutation<T>(s: seq<T>, t: seq<T>)
    requires Distinct(s) && Distinct(t) && Elems(s) == Elems(t)
    ensures multiset(s) == multiset(t)
  {
    forall x ensures multiset(s)[x] == multiset(t)[x] {
      DistinctOccursOnce(s, x);
      DistinctOccursOnce(t, x);
      assert x in s <==> x in Elems(s);
      assert x in t <==> x in Elems(t);
    }
  }

  /** A repetition-free sequence drawn from `t` with as many elements as `t`
      uses every element of `t`, and `t` has no repetition. */
  lemma CoverFromDistinct<T>(s: seq<T>, t: seq<T>)
    requires Distinct(s) && Elems(s) <= Elems(t) && |s| == |t|
    ensures Distinct(t) && Elems(s) == Elems(t) && multiset(s) == multiset(t)
  {
    SetCardinality(s);
    SetCardinality(t);
    assert |Elems(s)| <= |Elems(t)| by { SubsetCardinality(Elems(s), Elems(t)); }
    assert |Elems(t)| == |t|;
    SubsetEqualCardinality(Elems(s), Elems(t));
    DistinctSameSetIsPermutation(s, t);
  }

  /** A subset is no larger than its superset. */
  lemma SubsetCardinality<T>(a: set<T>, b: set<T>)
    requires a <= b
    ensures |a| <= |b|
  {
    assert b == a + (b - a);
  }

  /** A subset as large as its superset is the superset. */
  lemma SubsetEqualCardinality<T>(a: set<T>, b: set<T>)
    requires a <= b && |a| == |b|
    ensures a == b
  {
    assert b == a + (b - a);
    assert |b - a| == 0;
  }

  /** Membership in a non-empty sequence: before its last element, or the last. */
  lemma InitOrLastAt<T>(s: seq<T>, x: T)
    requires s != []
    ensures x in s <==> x in s[..|s| - 1] || x == s[|s| - 1]
  {
    assert s == s[..|s| - 1] + [s[|s| - 1]];
  }

  /** `InitOrLastAt` for every element at once. */
  lemma InitOrLast<T>(s: seq<T>)
    requires s != []
    ensures forall x :: x in s <==> x in s[..|s| - 1] || x == s[|s| - 1]
  {
    assert s == s[..|s| - 1] + [s[|s| - 1]];
  }

  /** Two repetition-free sequences with no common element concatenate to a repetition-free one. */
  lemma DistinctConcat<T>(a: seq<T>, b: seq<T>)
    requires Distinct(a) && Distinct(b)
    requires forall x :: x in a ==> x !in b
    ensures Distinct(a + b)
  {
    var t := a + b;
    forall i, j | 0 <= i < j < |t| ensures t[i] != t[j] {
      if j < |a| {
        assert t[i] == a[i] && t[j] == a[j];
      } else if i >= |a| {
        assert t[i] == b[i - |a|] && t[j] == b[j - |a|];
      } else {
        assert t[i] == a[i] && t[j] == b[j - |a|];
        assert a[i] in a;
      }
    }
  }

  /** Concatenation regroups freely. */
  lemma ConcatAssoc<T>(a: seq<T>, b: seq<T>, c: seq<T>)
    ensures (a + b) + c == a + (b + c)
  {
  }
}
