/** The selection rule behind `max(d, key=d.get)` on a dictionary that was
    filled in a known order: a maximal scorer, the first one among equals. */
module Argmax {
  import opened Results
  import opened Ratio

  /** Position of the first occurrence of x in xs. */
  function FirstIndex(xs: seq<string>, x: string): (i: nat)
    requires x in xs
    ensures i < |xs| && xs[i] == x
    ensures forall j :: 0 <= j < i ==> xs[j] != x
  {
    if xs[0] == x then 0 else 1 + FirstIndex(xs[1..], x)
  }

  /** Extending a sequence at its end does not move the first occurrence of
      an element that is already there. */
  lemma FirstIndexOfPrefix(xs: seq<string>, x: string)
    requires |xs| > 0 && x in xs[..|xs| - 1]
    ensures FirstIndex(xs, x) == FirstIndex(xs[..|xs| - 1], x)
  {
    var front := xs[..|xs| - 1];
    var i, k := FirstIndex(xs, x), FirstIndex(front, x);
    assert xs[k] == front[k] == x;
    assert forall j :: 0 <= j < |front| ==> front[j] == xs[j];
  }

  /** x is an eligible element of xs whose score is at least that of every
      eligible element, and every eligible element before x's first
      occurrence scores strictly less. */
  ghost predicate IsFirstBest(xs: seq<string>, eligible: string -> bool, score: string -> Score, x: string)
  {
    && x in xs
    && eligible(x)
    && (forall y :: y in xs && eligible(y) ==> AtLeast(score(x), score(y)))
    && (forall j :: 0 <= j < FirstIndex(xs, x) && eligible(xs[j]) ==> !AtLeast(score(xs[j]), score(x)))
  }

  /** There is at most one first best element, so the selection is
      deterministic. */
  lemma FirstBestUnique(xs: seq<string>, eligible: string -> bool, score: string -> Score, x: string, y: string)
    requires IsFirstBest(xs, eligible, score, x)
    requires IsFirstBest(xs, eligible, score, y)
    ensures x == y
  {
    var i, k := FirstIndex(xs, x), FirstIndex(xs, y);
    // Whichever occurs first scores at least the other, so the other's
    // strictness rules out a strictly earlier first occurrence.
    assert AtLeast(score(x), score(y)) && AtLeast(score(y), score(x));
    assert i < k ==> !AtLeast(score(x), score(y));
    assert k < i ==> !AtLeast(score(y), score(x));
  }

  /** Scan xs from left to right, keeping the best eligible element seen so
      far; a later element replaces it only when it scores strictly more. */
  function FirstBest(xs: seq<string>, eligible: string -> bool, score: string -> Score): (r: Option<string>)
    ensures r.None? <==> forall y :: y in xs ==> !eligible(y)
    ensures r.Some? ==> IsFirstBest(xs, eligible, score, r.value)
    decreases |xs|
  {
    if |xs| == 0 then None
    else
      var front, x := xs[..|xs| - 1], xs[|xs| - 1];
      assert xs == front + [x];
      var prev := FirstBest(front, eligible, score);
      AtLeastTotalPreorder();
      if !eligible(x) then
        assert prev.Some? ==> FirstIndex(xs, prev.value) == FirstIndex(front, prev.value) by {
          if prev.Some? { FirstIndexOfPrefix(xs, prev.value); }
        }
        prev
      else if prev.None? || !AtLeast(score(prev.value), score(x)) then
        Some(x)
      else
        assert FirstIndex(xs, prev.value) == FirstIndex(front, prev.value) by {
          FirstIndexOfPrefix(xs, prev.value);
        }
        prev
  }
}
