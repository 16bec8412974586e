/** `suggest_friend`: find the other user whose follow-set is most similar
    to the requester's, then recommend the entry of that user's follow-list
    that the requester does not follow yet and that itself follows the most
    users. */
module Recommend {
  import opened Results
  import opened Ratio
  import opened FollowGraph
  import opened JaccardIndex
  import opened Argmax

  /** Phase 1 score of p: the Jaccard index of p's and the requester's lists. */
  function Similarity(g: Graph, user: string, p: string): Score
  {
    Jaccard(Following(g, user), Following(g, p))
  }

  /** Phase 2 score of a candidate: how many users the candidate follows
      (its outgoing degree, not its number of followers). */
  function Popularity(g: Graph, c: string): Score
  {
    Score(|Following(g, c)|, 1)
  }

  /** Phase 1 considers every user except the requester. */
  function OtherThan(user: string): string -> bool
  {
    p => p != user
  }

  function SimilarityTo(g: Graph, user: string): string -> Score
  {
    p => Similarity(g, user, p)
  }

  /** Phase 2 considers the entries the requester does not follow. */
  function NotFollowedBy(g: Graph, user: string): string -> bool
  {
    c => c !in Following(g, user)
  }

  function PopularityIn(g: Graph): string -> Score
  {
    c => Popularity(g, c)
  }

  /** s is the user phase 1 must pick for the requester. */
  ghost predicate IsMostSimilar(g: Graph, user: string, s: string)
  {
    IsFirstBest(g.order, OtherThan(user), SimilarityTo(g, user), s)
  }

  /** c is the entry phase 2 must pick from s's follow-list. */
  ghost predicate IsBestCandidate(g: Graph, user: string, s: string, c: string)
  {
    IsFirstBest(Following(g, s), NotFollowedBy(g, user), PopularityIn(g), c)
  }

  /** Phase 1: the other user with the highest Jaccard index, the earliest
      in key order among equals. */
  function MostSimilar(g: Graph, user: string): (r: Result<string, Error>)
    requires Valid(g)
    ensures r.Success? <==> user in g.follows && exists p :: p in g.follows && p != user
    ensures r.Failure? ==> (r.error == NoSimilarUser <==> forall p :: p in g.follows ==> p == user)
    ensures r.Failure? && r.error != NoSimilarUser ==> r.error == UnknownUser(user)
    ensures r.Success? ==> r.value in g.follows && r.value != user
    ensures r.Success? ==> forall p :: p in g.follows && p != user ==>
                             AtLeast(Similarity(g, user, r.value), Similarity(g, user, p))
    ensures r.Success? ==> forall i :: 0 <= i < FirstIndex(g.order, r.value) && g.order[i] != user ==>
                             !AtLeast(Similarity(g, user, g.order[i]), Similarity(g, user, r.value))
    ensures r.Success? ==> IsMostSimilar(g, user, r.value)
  {
    var best := FirstBest(g.order, OtherThan(user), SimilarityTo(g, user));
    if best.None? then
      Failure(NoSimilarUser)
    else if user !in g.follows then
      Failure(UnknownUser(user))
    else
      Success(best.value)
  }

  /** Phase 2: among the entries of s's follow-list that the requester does
      not follow, the one that follows the most users, the earliest in s's
      list among equals. The requester itself is not excluded. */
  function BestCandidate(g: Graph, user: string, s: string): (r: Result<string, Error>)
    requires Valid(g) && user in g.follows && s in g.follows
    ensures r.Success? <==> exists c :: c in g.follows[s] && c !in g.follows[user]
    ensures r.Failure? ==> r.error == NoCandidate
    ensures r.Success? ==> r.value in g.follows[s] && r.value !in g.follows[user] && r.value in g.follows
    ensures r.Success? ==> forall c :: c in g.follows[s] && c !in g.follows[user] ==>
                             |g.follows[c]| <= |g.follows[r.value]|
    ensures r.Success? ==> forall j :: 0 <= j < FirstIndex(g.follows[s], r.value) && g.follows[s][j] !in g.follows[user] ==>
                             |g.follows[g.follows[s][j]]| < |g.follows[r.value]|
    ensures r.Success? ==> IsBestCandidate(g, user, s, r.value)
  {
    var best := FirstBest(g.follows[s], NotFollowedBy(g, user), PopularityIn(g));
    if best.None? then
      Failure(NoCandidate)
    else
      BestCandidateMaximal(g, user, s, best.value);
      BestCandidateEarliest(g, user, s, best.value);
      Success(best.value)
  }

  /** The phase 2 argmax read back as follow counts: no eligible entry
      follows more users than the pick. */
  lemma BestCandidateMaximal(g: Graph, user: string, s: string, b: string)
    requires Valid(g) && user in g.follows && s in g.follows
    requires IsBestCandidate(g, user, s, b)
    ensures b in g.follows
    ensures forall c :: c in g.follows[s] && c !in g.follows[user] ==> |g.follows[c]| <= |g.follows[b]|
  {
    forall c | c in g.follows[s] && c !in g.follows[user]
      ensures |g.follows[c]| <= |g.follows[b]|
    {
      assert AtLeast(Popularity(g, b), Popularity(g, c));
    }
  }

  /** ... and every eligible entry before the pick follows strictly fewer. */
  lemma BestCandidateEarliest(g: Graph, user: string, s: string, b: string)
    requires Valid(g) && user in g.follows && s in g.follows
    requires IsBestCandidate(g, user, s, b)
    ensures b in g.follows
    ensures forall j :: 0 <= j < FirstIndex(g.follows[s], b) && g.follows[s][j] !in g.follows[user] ==>
              |g.follows[g.follows[s][j]]| < |g.follows[b]|
  {
    var list := g.follows[s];
    forall j | 0 <= j < FirstIndex(list, b) && list[j] !in g.follows[user]
      ensures |g.follows[list[j]]| < |g.follows[b]|
    {
      assert NotFollowedBy(g, user)(list[j]);
      assert !AtLeast(Popularity(g, list[j]), Popularity(g, b));
    }
  }

  /** When exactly one entry of s's list is not followed by the requester,
      phase 2 picks that entry, whatever anyone's follow counts. */
  lemma SoleCandidate(g: Graph, user: string, s: string, c: string)
    requires Valid(g) && user in g.follows && s in g.follows
    requires c in g.follows[s] && c !in g.follows[user]
    requires forall d :: d in g.follows[s] && d !in g.follows[user] ==> d == c
    ensures BestCandidate(g, user, s) == Success(c)
  {
  }

  /** `suggest_friend`: phase 1, then phase 2 on the user phase 1 picked. */
  function SuggestFriend(g: Graph, user: string): (r: Result<string, Error>)
    requires Valid(g)
    ensures r.Success? ==> user in g.follows && r.value in g.follows && r.value !in g.follows[user]
    ensures r.Success? ==> MostSimilar(g, user).Success? && r.value in g.follows[MostSimilar(g, user).value]
    ensures r.Failure? && r.error == NoCandidate <==>
              MostSimilar(g, user).Success? && forall c :: c in g.follows[MostSimilar(g, user).value] ==> c in g.follows[user]
    ensures r.Failure? && r.error != NoCandidate ==> r == MostSimilar(g, user)
  {
    var similar := MostSimilar(g, user);
    if similar.Failure? then Failure(similar.error)
    else BestCandidate(g, user, similar.value)
  }

  /** The suggestion is exactly the entry the two-phase rule designates:
      the first best candidate of the first most similar user. */
  lemma SuggestFriendMeetsRule(g: Graph, user: string, c: string)
    requires Valid(g)
    ensures SuggestFriend(g, user) == Success(c) <==>
              user in g.follows && exists s :: IsMostSimilar(g, user, s) && IsBestCandidate(g, user, s, c)
  {
    var similar := MostSimilar(g, user);
    if SuggestFriend(g, user) == Success(c) {
      assert IsMostSimilar(g, user, similar.value);
      assert IsBestCandidate(g, user, similar.value, c);
    }
    if user in g.follows && exists s :: IsMostSimilar(g, user, s) && IsBestCandidate(g, user, s, c) {
      var s :| IsMostSimilar(g, user, s) && IsBestCandidate(g, user, s, c);
      assert OtherThan(user)(s);
      assert similar.Success?;
      FirstBestUnique(g.order, OtherThan(user), SimilarityTo(g, user), s, similar.value);
      var r := BestCandidate(g, user, s);
      assert NotFollowedBy(g, user)(c);
      assert r.Success?;
      FirstBestUnique(Following(g, s), NotFollowedBy(g, user), PopularityIn(g), c, r.value);
    }
  }
}
