/** The similarity of two follow-lists: the Jaccard index of the sets of
    users they name, |A ∩ B| / |A ∪ B|, kept as an exact fraction. */
module JaccardIndex {
  import opened Ratio

  /** The users a follow-list names, duplicates collapsed. */
  function FollowSet(s: seq<string>): set<string>
  {
    set x | x in s
  }

  /** A subset is no larger than its superset, and equally large only when
      the two are equal. */
  lemma SubsetCardinality<T>(x: set<T>, y: set<T>)
    requires x <= y
    ensures |x| <= |y|
    ensures |x| == |y| ==> x == y
  {
    assert y == x + (y - x);
    assert x * (y - x) == {};
    if |x| == |y| {
      assert |y - x| == 0;
    }
  }

  /** The Jaccard index of a and b. Both following nobody scores 0. */
  function Jaccard(a: seq<string>, b: seq<string>): (r: Score)
    ensures r.num <= r.den
    ensures 0.0 <= Value(r) <= 1.0
  {
    var both, either := FollowSet(a) * FollowSet(b), FollowSet(a) + FollowSet(b);
    SubsetCardinality(both, either);
    var r := Score(|both|, |either|);
    assert Value(r) <= 1.0 by {
      CrossMultiply(r.num as real, Den(r) as real, 1.0, 1.0);
    }
    r
  }

  /** The index is 1 exactly when both lists name the same non-empty set. */
  lemma JaccardIsOne(a: seq<string>, b: seq<string>)
    ensures Value(Jaccard(a, b)) == 1.0 <==> FollowSet(a) == FollowSet(b) != {}
  {
    var A, B := FollowSet(a), FollowSet(b);
    var r := Jaccard(a, b);
    SubsetCardinality(A * B, A + B);
    if Value(r) == 1.0 {
      CrossMultiply(r.num as real, Den(r) as real, 1.0, 1.0);
      CrossMultiply(1.0, 1.0, r.num as real, Den(r) as real);
      assert r.num == Den(r);
      assert r.den > 0;
      assert A * B == A + B;
      assert A == B by {
        assert A <= A + B && B <= A + B;
      }
      var x :| x in A + B;
    }
    if A == B != {} {
      assert A * B == A + B;
      assert r.num == r.den > 0;
    }
  }

  /** The index is 0 exactly when the lists have no user in common, which
      includes both lists naming nobody. */
  lemma JaccardIsZero(a: seq<string>, b: seq<string>)
    ensures Value(Jaccard(a, b)) == 0.0 <==> FollowSet(a) * FollowSet(b) == {}
  {
    var r := Jaccard(a, b);
    if r.num > 0 {
      assert r.num as real / Den(r) as real > 0.0;
    }
    if FollowSet(a) * FollowSet(b) != {} {
      assert r.num > 0;
    }
  }
}
