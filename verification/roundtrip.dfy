/** Loading a file and rendering the network: when no user starts two
    lines, the rendered edges are exactly the edges the file lists. */
module FileRoundTrip {
  import opened Results
  import opened FollowGraph
  import opened Loader
  import opened Dot

  /** The edges a file lists: for each line in turn, its user paired with
      each later token. */
  function FileEdges(lines: seq<seq<string>>): seq<(string, string)>
    requires WellFormed(lines)
  {
    if |lines| == 0 then []
    else
      var line := lines[|lines| - 1];
      FileEdges(lines[..|lines| - 1]) + EdgesFrom(line[0], line[1..])
  }

  /** No user starts more than one line. */
  ghost predicate OneLinePerUser(lines: seq<seq<string>>)
    requires WellFormed(lines)
  {
    forall i, j :: 0 <= i < j < |lines| ==> lines[i][0] != lines[j][0]
  }

  /** With one line per user, the file lists (u, f) as often as f follows u
      on u's line. */
  lemma {:induction false} FileEdgeMultiplicity(lines: seq<seq<string>>, u: string, f: string)
    requires WellFormed(lines) && OneLinePerUser(lines)
    ensures multiset(FileEdges(lines))[(u, f)] == multiset(ListFromFile(lines, u))[f]
    decreases |lines|
  {
    if |lines| > 0 {
      var front, line := lines[..|lines| - 1], lines[|lines| - 1];
      assert OneLinePerUser(front) by {
        forall i, j | 0 <= i < j < |front| ensures front[i][0] != front[j][0] {
          assert front[i] == lines[i] && front[j] == lines[j];
        }
      }
      FileEdgeMultiplicity(front, u, f);
      OutEdgeMultiplicity(line[0], line[1..], u, f);
      ListFromFileStep(lines, u);
      assert u == line[0] ==> LastLineOf(front, u).None?;
    }
  }

  /** One edge (u, f): the rendering of the loaded network and the file
      list it equally often. */
  lemma EdgeCountsAgree(lines: seq<seq<string>>, u: string, f: string)
    requires WellFormed(lines) && OneLinePerUser(lines)
    ensures multiset(Edges(Load(lines)))[(u, f)] == multiset(FileEdges(lines))[(u, f)]
  {
    var g := Load(lines);
    EdgeMultiplicity(g.order, g.follows, u, f);
    FileEdgeMultiplicity(lines, u, f);
    if u !in g.order {
      NoLineAboutNonToken(lines, u);
    }
  }

  /** Loading and then rendering reproduces every edge of the file, each as
      often as the file lists it, and no other edge. */
  lemma LoadThenRender(lines: seq<seq<string>>)
    requires WellFormed(lines) && OneLinePerUser(lines)
    ensures multiset(Edges(Load(lines))) == multiset(FileEdges(lines))
  {
    forall u, f ensures multiset(Edges(Load(lines)))[(u, f)] == multiset(FileEdges(lines))[(u, f)] {
      EdgeCountsAgree(lines, u, f);
    }
    SameCounts(Edges(Load(lines)), FileEdges(lines));
  }

  /** Two edge sequences in which every edge occurs equally often are
      permutations of each other. */
  lemma SameCounts(a: seq<(string, string)>, b: seq<(string, string)>)
    requires forall u, f :: multiset(a)[(u, f)] == multiset(b)[(u, f)]
    ensures multiset(a) == multiset(b)
  {
    forall e | true ensures multiset(a)[e] == multiset(b)[e] {
      assert multiset(a)[(e.0, e.1)] == multiset(b)[(e.0, e.1)];
    }
  }
}
