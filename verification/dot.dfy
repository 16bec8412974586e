/** `to_dot`: the Graphviz rendering of the network, one line per follow
    edge between fixed header and footer lines. */
module Dot {
  import opened FollowGraph

  const Header: seq<string> := ["digraph {", "    layout=neato", "    overlap=scalexy"]
  const Footer: string := "}"

  /** The edge statement for "u follows f". */
  function EdgeLine(u: string, f: string): string
  {
    "    \"" + u + "\" -> \"" + f + "\""
  }

  /** The edges out of u, in follow-list order. */
  function EdgesFrom(u: string, fs: seq<string>): (es: seq<(string, string)>)
    ensures |es| == |fs|
    ensures forall k :: 0 <= k < |fs| ==> es[k] == (u, fs[k])
  {
    seq(|fs|, k requires 0 <= k < |fs| => (u, fs[k]))
  }

  /** The edges out of each of users in turn. */
  function EdgesOf(users: seq<string>, follows: map<string, seq<string>>): seq<(string, string)>
    requires forall u :: u in users ==> u in follows
  {
    if |users| == 0 then []
    else EdgesOf(users[..|users| - 1], follows) + EdgesFrom(users[|users| - 1], follows[users[|users| - 1]])
  }

  /** Every (follower, followee) pair, in key order and then follow-list
      order. */
  function Edges(g: Graph): (es: seq<(string, string)>)
    requires Valid(g)
    ensures |es| == TotalFollows(g.order, g.follows)
    ensures forall u, f :: (u, f) in es <==> u in g.follows && f in g.follows[u]
  {
    EdgeCount(g.order, g.follows);
    forall u, f ensures (u, f) in EdgesOf(g.order, g.follows) <==> u in g.follows && f in g.follows[u] {
      EdgesComplete(g.order, g.follows, u, f);
    }
    EdgesOf(g.order, g.follows)
  }

  /** The number of follows recorded for users, counted list by list. */
  function TotalFollows(users: seq<string>, follows: map<string, seq<string>>): nat
    requires forall u :: u in users ==> u in follows
  {
    if |users| == 0 then 0 else |follows[users[0]]| + TotalFollows(users[1..], follows)
  }

  lemma {:induction false} TotalFollowsAppend(users: seq<string>, u: string, follows: map<string, seq<string>>)
    requires forall v :: v in users ==> v in follows
    requires u in follows
    ensures TotalFollows(users + [u], follows) == TotalFollows(users, follows) + |follows[u]|
    decreases |users|
  {
    if |users| == 0 {
      assert [u][1..] == [];
    } else {
      assert (users + [u])[1..] == users[1..] + [u];
      TotalFollowsAppend(users[1..], u, follows);
    }
  }

  /** There is one edge per entry of a follow-list. */
  lemma {:induction false} EdgeCount(users: seq<string>, follows: map<string, seq<string>>)
    requires forall u :: u in users ==> u in follows
    ensures |EdgesOf(users, follows)| == TotalFollows(users, follows)
    decreases |users|
  {
    if |users| > 0 {
      var front, last := users[..|users| - 1], users[|users| - 1];
      assert users == front + [last];
      EdgeCount(front, follows);
      TotalFollowsAppend(front, last, follows);
    }
  }

  /** (u, f) is an edge exactly when u is a user and f is on u's list. */
  lemma {:induction false} EdgesComplete(users: seq<string>, follows: map<string, seq<string>>, u: string, f: string)
    requires forall v :: v in users ==> v in follows
    ensures (u, f) in EdgesOf(users, follows) <==> u in users && f in follows[u]
    decreases |users|
  {
    if |users| > 0 {
      var front, last := users[..|users| - 1], users[|users| - 1];
      assert users == front + [last];
      EdgesComplete(front, follows, u, f);
      var out := EdgesFrom(last, follows[last]);
      if (u, f) in out {
        var k :| 0 <= k < |out| && out[k] == (u, f);
      }
      if u == last && f in follows[u] {
        var k :| 0 <= k < |follows[u]| && follows[u][k] == f;
        assert out[k] == (u, f);
      }
    }
  }

  /** With each user listed once, each edge occurs as often as the followee
      occurs on the follower's list: rendering neither drops nor repeats a
      follow. */
  lemma {:induction false} EdgeMultiplicity(users: seq<string>, follows: map<string, seq<string>>, u: string, f: string)
    requires forall v :: v in users ==> v in follows
    requires Distinct(users)
    ensures multiset(EdgesOf(users, follows))[(u, f)] == if u in users then multiset(follows[u])[f] else 0
    decreases |users|
  {
    if |users| > 0 {
      var front, last := users[..|users| - 1], users[|users| - 1];
      assert users == front + [last];
      EdgeMultiplicity(front, follows, u, f);
      OutEdgeMultiplicity(last, follows[last], u, f);
      assert u in users <==> u in front || u == last;
      assert u == last ==> u !in front;
    }
  }

  /** The edges out of v contain (u, f) once per occurrence of f when
      u == v, and never otherwise. */
  lemma {:induction false} OutEdgeMultiplicity(v: string, fs: seq<string>, u: string, f: string)
    ensures multiset(EdgesFrom(v, fs))[(u, f)] == if u == v then multiset(fs)[f] else 0
    decreases |fs|
  {
    if |fs| > 0 {
      var front := fs[..|fs| - 1];
      assert fs == front + [fs[|fs| - 1]];
      assert EdgesFrom(v, fs) == EdgesFrom(v, front) + [(v, fs[|fs| - 1])];
      OutEdgeMultiplicity(v, front, u, f);
    } else {
      assert EdgesFrom(v, fs) == [];
    }
  }

  /** The inner loop of `to_dot`: one edge line per followee of u, appended
      in follow-list order. */
  method AppendEdgeLines(lines: seq<string>, u: string, friends: seq<string>) returns (r: seq<string>)
    ensures |r| == |lines| + |friends|
    ensures r[..|lines|] == lines
    ensures forall k :: 0 <= k < |friends| ==> r[|lines| + k] == EdgeLine(u, friends[k])
  {
    r := lines;
    var j := 0;
    while j < |friends|
      invariant 0 <= j <= |friends|
      invariant |r| == |lines| + j
      invariant r[..|lines|] == lines
      invariant forall k :: 0 <= k < j ==> r[|lines| + k] == EdgeLine(u, friends[k])
    {
      r := r + [EdgeLine(u, friends[j])];
      j := j + 1;
    }
  }

  /** `to_dot` as its loops build it: the header, an edge line for each
      user's follows in turn, then the footer. */
  method ToDot(g: Graph) returns (lines: seq<string>)
    requires Valid(g)
    ensures |lines| == |Header| + TotalFollows(g.order, g.follows) + 1
    ensures lines[..|Header|] == Header
    ensures lines[|lines| - 1] == Footer
    ensures forall k :: 0 <= k < |Edges(g)| ==> lines[|Header| + k] == EdgeLine(Edges(g)[k].0, Edges(g)[k].1)
  {
    lines := Header;
    ghost var done: seq<(string, string)> := [];
    var i := 0;
    while i < |g.order|
      invariant 0 <= i <= |g.order|
      invariant done == EdgesOf(g.order[..i], g.follows)
      invariant |lines| == |Header| + |done|
      invariant lines[..|Header|] == Header
      invariant forall k :: 0 <= k < |done| ==> lines[|Header| + k] == EdgeLine(done[k].0, done[k].1)
    {
      var u := g.order[i];
      var before := lines;
      lines := AppendEdgeLines(lines, u, g.follows[u]);
      assert lines[..|Header|] == before[..|Header|] by {
        assert lines[..|Header|] == lines[..|before|][..|Header|];
      }
      assert g.order[..i + 1][..i] == g.order[..i];
      done := done + EdgesFrom(u, g.follows[u]);
      i := i + 1;
    }
    assert g.order[..i] == g.order;
    assert done == Edges(g);
    lines := lines + [Footer];
  }
}
