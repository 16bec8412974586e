/** The defective lines of `SocialNetwork` as they are written, each set
    beside the corrected definition the rest of the model uses. A Python
    exception becomes a `Fault`. */
module Findings {
  import opened Results
  import opened Ratio
  import opened FollowGraph
  import opened JaccardIndex
  import opened Argmax
  import opened Recommend
  import opened Scenarios

  /** The Python exceptions the defective lines raise. */
  datatype Fault = NameError | AttributeError | KeyError | ValueError | ZeroDivisionError

  /** `add_friend` as written: a follower that is not yet a user makes
      line 50 evaluate the undefined name `users`; otherwise lines 51-52
      add a missing followee and line 54 appends it. */
  function AddFriendAsWritten(g: Graph, u: string, f: string): (r: Result<Graph, Fault>)
    requires Valid(g)
    ensures r.Failure? <==> u !in g.follows
    ensures r.Failure? ==> r.error == NameError
    ensures r.Success? ==> r.value == AddFriend(g, u, f)
  {
    if u !in g.follows then Failure(NameError) else Success(AppendFollow(EnsureUser(g, f), u, f))
  }

  /** On an empty network, following someone fails as written, while the
      corrected operation adds both users and the edge. */
  lemma AddFriendAsWrittenRejectsNewFollower(g: Graph)
    requires g == Empty()
    ensures AddFriendAsWritten(g, "alice", "bob") == Failure(NameError)
    ensures GetFriends(AddFriend(g, "alice", "bob"), "alice") == Success(["bob"])
  {
    assert Following(g, "alice") == [];
    AddFriendThenGetFriends(g, "alice", "bob");
    assert [] + ["bob"] == ["bob"];
  }

  /** Line 89 as written (with line 87 read as the size of the union): the
      quotient of the two set sizes, which divides by zero when both users
      follow nobody. */
  function JaccardQuotientAsWritten(a: seq<string>, b: seq<string>): (r: Result<real, Fault>)
    ensures r.Failure? <==> FollowSet(a) == {} && FollowSet(b) == {}
    ensures r.Failure? ==> r.error == ZeroDivisionError
    ensures r.Success? ==> r.value == Value(Jaccard(a, b))
  {
    var both, either := FollowSet(a) * FollowSet(b), FollowSet(a) + FollowSet(b);
    if |either| == 0 then Failure(ZeroDivisionError)
    else Success(|both| as real / |either| as real)
  }

  /** Two users who follow nobody: the quotient as written raises, the
      corrected index is 0. */
  lemma JaccardQuotientAsWrittenDividesByZero()
    ensures JaccardQuotientAsWritten([], []) == Failure(ZeroDivisionError)
    ensures Value(Jaccard([], [])) == 0.0
  {
    assert FollowSet([]) == {};
  }

  /** The loop at lines 82-91 run over the first n keys, with lines 87 and
      89 read as intended (the size of the union, and 0 for an empty union)
      and line 91 as written: the dictionary's `max` is taken at the end of
      every iteration instead of once after the loop. None while no
      iteration has run. */
  function Phase1AsWritten(g: Graph, user: string, n: nat): (r: Result<Option<string>, Fault>)
    requires Valid(g) && user in g.follows && n <= |g.order|
    ensures n == 0 ==> r == Success(None)
    ensures n > 0 ==> (r.Failure? <==> g.order[0] == user)
    ensures r.Failure? ==> r.error == ValueError
    ensures n > 0 && r.Success? ==> r.value.Some? && r.value == FirstBest(g.order[..n], OtherThan(user), SimilarityTo(g, user))
  {
    if n == 0 then Success(None)
    else
      match Phase1AsWritten(g, user, n - 1)
      case Failure(e) => Failure(e)
      case Success(_) =>
        var best := FirstBest(g.order[..n], OtherThan(user), SimilarityTo(g, user));
        assert n > 1 ==> OtherThan(user)(g.order[..n][0]) || OtherThan(user)(g.order[..n][1]);
        if best.None? then Failure(ValueError) else Success(best)
  }

  /** Phase 1 with lines 87 and 89 read as intended and line 91 as written:
      it raises when the requester is the first key, because `max` then runs
      on an empty dictionary; otherwise it agrees with the corrected phase 1. */
  function MostSimilarAsWritten(g: Graph, user: string): (r: Result<string, Fault>)
    requires Valid(g) && user in g.follows
    ensures r.Failure? <==> g.order[0] == user
    ensures r.Success? ==> MostSimilar(g, user) == Success(r.value)
  {
    assert g.order[..|g.order|] == g.order;
    match Phase1AsWritten(g, user, |g.order|)
    case Failure(e) => Failure(e)
    case Success(best) => Success(best.value)
  }

  /** Alice is the first key and bob the only other user: as written the
      first iteration calls `max` on an empty dictionary, while the corrected
      phase 1 picks bob. */
  lemma MostSimilarAsWrittenFailsForFirstKey()
    ensures var g := Graph(["alice", "bob"], map["alice" := [], "bob" := []]);
            && Valid(g)
            && MostSimilarAsWritten(g, "alice") == Failure(ValueError)
            && MostSimilar(g, "alice") == Success("bob")
  {
    var g := Graph(["alice", "bob"], map["alice" := [], "bob" := []]);
    assert forall p :: p in g.follows && p != "alice" ==> p == "bob";
  }

  /** `suggest_friend` as written never returns: with no users the loop does
      not run and `most_similar` is unbound at line 95; a requester that is
      the first key reaches `max` on an empty dictionary at line 91; any
      other first key reaches line 85, which raises for an unknown
      requester, and otherwise line 87, where `len(...)` is an int with no
      `union`. */
  function SuggestFriendAsWritten(g: Graph, user: string): (r: Result<string, Fault>)
    requires Valid(g)
    ensures r.Failure?
    ensures r.error == NameError <==> |g.order| == 0
    ensures r.error == ValueError <==> |g.order| > 0 && g.order[0] == user
    ensures r.error == KeyError <==> |g.order| > 0 && user !in g.follows
    ensures r.error == AttributeError <==> user in g.follows && |g.order| > 0 && g.order[0] != user
  {
    if |g.order| == 0 then Failure(NameError)
    else if g.order[0] == user then Failure(Phase1AsWritten(g, user, 1).error)
    else
      match GetFriends(g, user)
      case Failure(_) => Failure(KeyError)
      case Success(_) => Failure(AttributeError)
  }

  /** On the three-line network, the corrected rule recommends carol to
      francis; as written the call raises at line 87. */
  lemma SuggestFriendAsWrittenNeverReturns(g: Graph)
    requires g == ThreeLineNetwork()
    ensures Valid(g)
    ensures SuggestFriendAsWritten(g, "francis") == Failure(AttributeError)
    ensures SuggestFriend(g, "francis") == Success("carol")
  {
    ThreeLineSuggestion(g);
  }
}
