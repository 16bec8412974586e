/** Consequences of the recommendation rule on particular shapes of network. */
module Scenarios {
  import opened Results
  import opened Ratio
  import opened FollowGraph
  import opened JaccardIndex
  import opened Argmax
  import opened Recommend
  import opened Loader

  /** When nobody follows anyone, every Jaccard index is 0, phase 1 falls
      back to the first other user in key order, and phase 2 finds nothing
      to recommend. */
  lemma NobodyFollowsAnyone(g: Graph, user: string)
    requires Valid(g)
    requires forall u :: u in g.follows ==> g.follows[u] == []
    requires user in g.follows && exists p :: p in g.follows && p != user
    ensures MostSimilar(g, user).Success?
    ensures forall i :: 0 <= i < FirstIndex(g.order, MostSimilar(g, user).value) ==> g.order[i] == user
    ensures SuggestFriend(g, user) == Failure(NoCandidate)
  {
    var s := MostSimilar(g, user).value;
    assert FollowSet([]) == {};
    forall i | 0 <= i < FirstIndex(g.order, s)
      ensures g.order[i] == user
    {
      assert Similarity(g, user, g.order[i]) == Score(0, 0);
    }
  }

  /** Nothing stops phase 2 from choosing the requester: here bob is the
      only other user, bob follows alice, and alice follows nobody, so alice
      is recommended to herself. */
  lemma RequesterCanBeSuggested()
    ensures var g := Graph(["alice", "bob"], map["alice" := [], "bob" := ["alice"]]);
            Valid(g) && SuggestFriend(g, "alice") == Success("alice")
  {
    var g := Graph(["alice", "bob"], map["alice" := [], "bob" := ["alice"]]);
    assert Valid(g);
    assert MostSimilar(g, "alice") == Success("bob") by {
      assert forall p :: p in g.follows && p != "alice" ==> p == "bob";
    }
    assert BestCandidate(g, "alice", "bob") == Success("alice") by {
      assert g.follows["bob"] == ["alice"];
      assert "alice" !in g.follows["alice"];
      SoleCandidate(g, "alice", "bob", "alice");
    }
  }

  /** A file of three lines: "alice bob carol", "dave bob carol erin",
      "francis bob". */
  function ThreeLines(): (lines: seq<seq<string>>)
    ensures WellFormed(lines)
  {
    [["alice", "bob", "carol"], ["dave", "bob", "carol", "erin"], ["francis", "bob"]]
  }

  /** The network the loader builds from those three lines. */
  function ThreeLineNetwork(): Graph
  {
    Graph(["alice", "bob", "carol", "dave", "erin", "francis"],
          map["alice" := ["bob", "carol"], "bob" := [], "carol" := [],
              "dave" := ["bob", "carol", "erin"], "erin" := [], "francis" := ["bob"]])
  }

  lemma ThreeLineTokens()
    ensures Tokens(ThreeLines()) == ["alice", "bob", "carol", "dave", "bob", "carol", "erin", "francis", "bob"]
  {
    var lines := ThreeLines();
    var l1, l2 := lines[..1], lines[..2];
    assert l1[..0] == [];
    assert Tokens(l1) == lines[0];
    assert l2[..1] == l1;
    assert Tokens(l2) == lines[0] + lines[1];
    assert lines[..2] == l2;
  }

  lemma ThreeLineOrder()
    ensures AppendNew([], ["alice", "bob", "carol", "dave", "bob", "carol", "erin", "francis", "bob"])
            == ["alice", "bob", "carol", "dave", "erin", "francis"]
  {
    var first, again, later := ["alice", "bob", "carol", "dave"], ["bob", "carol"], ["erin", "francis"];
    assert ["alice", "bob", "carol", "dave", "bob", "carol", "erin", "francis", "bob"]
           == ((first + again) + later) + ["bob"];
    OnlyFreshNamesEnter(first, again, later, ["bob"]);
  }

  /** Fresh names, then known ones, then fresh ones, then known ones: only
      the fresh names enter the key order. */
  lemma OnlyFreshNamesEnter(first: seq<string>, again: seq<string>, later: seq<string>, last: seq<string>)
    requires forall i, j :: 0 <= i < j < |first| ==> first[i] != first[j]
    requires forall x :: x in again ==> x in first
    requires forall x :: x in later ==> x !in first
    requires forall i, j :: 0 <= i < j < |later| ==> later[i] != later[j]
    requires forall x :: x in last ==> x in first + later
    ensures AppendNew([], ((first + again) + later) + last) == first + later
  {
    AppendNewFresh([], first);
    assert [] + first == first;
    AppendNewKnown(first, again);
    AppendNewConcat([], first, again);
    AppendNewFresh(first, later);
    AppendNewConcat([], first + again, later);
    AppendNewKnown(first + later, last);
    AppendNewConcat([], (first + again) + later, last);
  }

  lemma ThreeLineLists(lines: seq<seq<string>>)
    requires lines == ThreeLines()
    ensures forall u :: u in ThreeLineNetwork().follows ==> ListFromFile(lines, u) == ThreeLineNetwork().follows[u]
  {
    assert lines[..2][..1] == [lines[0]];
    assert lines[..1] == [lines[0]];
    assert lines[..2] == [lines[0], lines[1]];
  }

  lemma ThreeLinesLoadedOrder(lines: seq<seq<string>>)
    requires lines == ThreeLines()
    ensures Load(lines).order == ThreeLineNetwork().order
  {
    ThreeLineTokens();
    ThreeLineOrder();
  }

  lemma ThreeLinesLoadedKeys(lines: seq<seq<string>>)
    requires lines == ThreeLines()
    ensures Load(lines).follows.Keys == ThreeLineNetwork().follows.Keys
  {
    ThreeLinesLoadedOrder(lines);
    ThreeLineValid();
    SameOrderSameKeys(Load(lines), ThreeLineNetwork());
  }

  /** Two valid networks with the same key order have the same users. */
  lemma SameOrderSameKeys(g: Graph, t: Graph)
    requires Valid(g) && Valid(t) && g.order == t.order
    ensures g.follows.Keys == t.follows.Keys
  {
    assert forall u :: u in g.follows <==> u in t.follows;
  }

  lemma ThreeLinesLoadedLists(lines: seq<seq<string>>)
    requires lines == ThreeLines()
    ensures forall u :: u in ThreeLineNetwork().follows && u in Load(lines).follows ==>
              Load(lines).follows[u] == ThreeLineNetwork().follows[u]
  {
    ThreeLineLists(lines);
    ListsAgree(Load(lines), ThreeLineNetwork(), lines);
  }

  /** Two networks whose lists both match the file's agree on their common
      users. */
  lemma ListsAgree(g: Graph, t: Graph, lines: seq<seq<string>>)
    requires WellFormed(lines)
    requires forall u :: u in g.follows ==> g.follows[u] == ListFromFile(lines, u)
    requires forall u :: u in t.follows ==> ListFromFile(lines, u) == t.follows[u]
    ensures forall u :: u in t.follows && u in g.follows ==> g.follows[u] == t.follows[u]
  {
  }

  lemma ThreeLineEntries()
    ensures "alice" in ThreeLineNetwork().follows && ThreeLineNetwork().follows["alice"] == ["bob", "carol"]
    ensures "francis" in ThreeLineNetwork().follows && ThreeLineNetwork().follows["francis"] == ["bob"]
  {
  }

  /** Loading the three lines gives exactly that network: users in order of
      first appearance, each line's user following the rest of its line. */
  lemma ThreeLinesLoaded(lines: seq<seq<string>>)
    requires lines == ThreeLines()
    ensures Load(lines) == ThreeLineNetwork()
  {
    var g, t := Load(lines), ThreeLineNetwork();
    ThreeLinesLoadedOrder(lines);
    ThreeLinesLoadedKeys(lines);
    ThreeLinesLoadedLists(lines);
    SameEntries(g.follows, t.follows);
  }

  lemma SameEntries(m: map<string, seq<string>>, n: map<string, seq<string>>)
    requires m.Keys == n.Keys
    requires forall u :: u in n && u in m ==> m[u] == n[u]
    ensures m == n
  {
  }

  /** Francis's Jaccard index against each other user of the network. */
  lemma ThreeLineScores()
    ensures Similarity(ThreeLineNetwork(), "francis", "alice") == Score(1, 2)
    ensures Similarity(ThreeLineNetwork(), "francis", "dave") == Score(1, 3)
    ensures forall p :: p in {"bob", "carol", "erin"} ==> Similarity(ThreeLineNetwork(), "francis", p) == Score(0, 1)
  {
    assert FollowSet(["bob"]) == {"bob"};
    assert FollowSet(["bob", "carol"]) == {"bob", "carol"};
    assert FollowSet(["bob", "carol", "erin"]) == {"bob", "carol", "erin"};
    assert FollowSet([]) == {};
    assert {"bob"} * {"bob", "carol"} == {"bob"};
    assert {"bob"} + {"bob", "carol"} == {"bob", "carol"};
    assert {"bob"} * {"bob", "carol", "erin"} == {"bob"};
    assert {"bob"} + {"bob", "carol", "erin"} == {"bob", "carol", "erin"};
  }

  lemma ThreeLineValid()
    ensures Valid(ThreeLineNetwork())
  {
  }

  /** Alice is the user phase 1 must pick for francis. */
  lemma ThreeLineMostSimilar()
    ensures IsMostSimilar(ThreeLineNetwork(), "francis", "alice")
  {
    var g := ThreeLineNetwork();
    ThreeLineScores();
    assert FirstIndex(g.order, "alice") == 0;
    forall j | 0 <= j < |g.order| && OtherThan("francis")(g.order[j])
      ensures AtLeast(Similarity(g, "francis", "alice"), Similarity(g, "francis", g.order[j]))
    {
      assert g.order[j] in {"alice", "dave"} || g.order[j] in {"bob", "carol", "erin"};
    }
  }

  /** For francis, alice scores 1/2 and dave only 1/3, so alice is the most
      similar user, and carol is the one entry of alice's list francis does
      not follow. */
  lemma ThreeLineSuggestion(g: Graph)
    requires g == ThreeLineNetwork()
    ensures Valid(g)
    ensures MostSimilar(g, "francis") == Success("alice")
    ensures SuggestFriend(g, "francis") == Success("carol")
  {
    ThreeLineValid();
    var s := MostSimilar(g, "francis");
    assert s == Success("alice") by {
      ThreeLineMostSimilar();
      FirstBestUnique(g.order, OtherThan("francis"), SimilarityTo(g, "francis"), s.value, "alice");
    }
    assert BestCandidate(g, "francis", "alice") == Success("carol") by {
      ThreeLineEntries();
      SoleCandidate(g, "francis", "alice", "carol");
    }
  }
}
