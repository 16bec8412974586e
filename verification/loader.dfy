/** The per-line fold of `create_network_from_file`: each line names a user
    and then the users that user follows. Reading and splitting the file is
    not modelled; a line arrives as its list of tokens. */
module Loader {
  import opened Results
  import opened FollowGraph

  /** Every line has at least one token, the user it is about. */
  ghost predicate WellFormed(lines: seq<seq<string>>)
  {
    forall i :: 0 <= i < |lines| ==> |lines[i]| > 0
  }

  /** All tokens of all lines, in file order. */
  function Tokens(lines: seq<seq<string>>): seq<string>
  {
    if |lines| == 0 then [] else Tokens(lines[..|lines| - 1]) + lines[|lines| - 1]
  }

  /** The distinct elements of acc + xs, each where it first occurs. */
  function AppendNew(acc: seq<string>, xs: seq<string>): seq<string>
  {
    if |xs| == 0 then acc
    else
      var a := AppendNew(acc, xs[..|xs| - 1]);
      if xs[|xs| - 1] in a then a else a + [xs[|xs| - 1]]
  }

  lemma {:induction false} AppendNewConcat(acc: seq<string>, xs: seq<string>, ys: seq<string>)
    ensures AppendNew(AppendNew(acc, xs), ys) == AppendNew(acc, xs + ys)
    decreases |ys|
  {
    if |ys| > 0 {
      var front := ys[..|ys| - 1];
      assert (xs + ys)[..|xs + ys| - 1] == xs + front;
      AppendNewConcat(acc, xs, front);
    } else {
      assert xs + ys == xs;
    }
  }

  /** Names that are already present add nothing: re-adding a key keeps
      the key order. */
  lemma {:induction false} AppendNewKnown(acc: seq<string>, xs: seq<string>)
    requires forall x :: x in xs ==> x in acc
    ensures AppendNew(acc, xs) == acc
    decreases |xs|
  {
    if |xs| > 0 {
      AppendNewKnown(acc, xs[..|xs| - 1]);
    }
  }

  /** Distinct names that are not yet present are appended in order. */
  lemma {:induction false} AppendNewFresh(acc: seq<string>, xs: seq<string>)
    requires forall x :: x in xs ==> x !in acc
    requires forall i, j :: 0 <= i < j < |xs| ==> xs[i] != xs[j]
    ensures AppendNew(acc, xs) == acc + xs
    decreases |xs|
  {
    if |xs| > 0 {
      var front, x := xs[..|xs| - 1], xs[|xs| - 1];
      AppendNewFresh(acc, front);
      assert x !in front by {
        forall i | 0 <= i < |front| ensures front[i] != x {
          assert front[i] == xs[i];
        }
      }
      assert acc + xs == (acc + front) + [x];
    }
  }

  /** The user a line is about is one of the file's tokens. */
  lemma {:induction false} LineUserIsToken(lines: seq<seq<string>>, k: nat)
    requires WellFormed(lines) && k < |lines|
    ensures lines[k][0] in Tokens(lines)
    decreases |lines|
  {
    var front := lines[..|lines| - 1];
    if k < |lines| - 1 {
      assert front[k] == lines[k];
      LineUserIsToken(front, k);
    }
  }

  /** The index of the last line about u, if any. */
  function LastLineOf(lines: seq<seq<string>>, u: string): (r: Option<nat>)
    requires WellFormed(lines)
    ensures r.Some? ==> r.value < |lines| && lines[r.value][0] == u
    ensures r.Some? ==> forall k :: r.value < k < |lines| ==> lines[k][0] != u
    ensures r.None? ==> forall k :: 0 <= k < |lines| ==> lines[k][0] != u
  {
    if |lines| == 0 then None
    else if lines[|lines| - 1][0] == u then Some(|lines| - 1)
    else LastLineOf(lines[..|lines| - 1], u)
  }

  /** The follow-list the file gives u: the rest of the last line about u,
      or nothing when no line is about u. */
  function ListFromFile(lines: seq<seq<string>>, u: string): seq<string>
    requires WellFormed(lines)
  {
    match LastLineOf(lines, u)
    case Some(i) => lines[i][1..]
    case None => []
  }

  /** Appending a line changes the list the file gives to that line's user
      only. */
  lemma ListFromFileStep(lines: seq<seq<string>>, u: string)
    requires WellFormed(lines) && |lines| > 0
    ensures ListFromFile(lines, u) ==
              if u == lines[|lines| - 1][0] then lines[|lines| - 1][1..] else ListFromFile(lines[..|lines| - 1], u)
  {
    var front := lines[..|lines| - 1];
    if u != lines[|lines| - 1][0] {
      var last := LastLineOf(front, u);
      if last.Some? {
        assert lines[last.value] == front[last.value];
      }
    }
  }

  /** A name that is no token of the file starts no line. */
  lemma NoLineAboutNonToken(lines: seq<seq<string>>, u: string)
    requires WellFormed(lines) && u !in Tokens(lines)
    ensures ListFromFile(lines, u) == []
  {
    var last := LastLineOf(lines, u);
    if last.Some? {
      LineUserIsToken(lines, last.value);
    }
  }

  /** u follows each of fs in turn. */
  function AddFriends(g: Graph, u: string, fs: seq<string>): (r: Graph)
    requires Valid(g) && u in g.follows
    ensures Valid(r)
    ensures forall v :: v in r.follows <==> v in g.follows || v in fs
    ensures forall v :: v in r.follows ==> r.follows[v] == if v == u then g.follows[u] + fs else Following(g, v)
    ensures r.order == AppendNew(g.order, fs)
    decreases |fs|
  {
    if |fs| == 0 then g
    else
      var front, f := fs[..|fs| - 1], fs[|fs| - 1];
      assert fs == front + [f];
      var r0 := AddFriends(g, u, front);
      AddFriendsStepKeys(g, u, front, f, r0);
      forall v ensures var r := AddFriend(r0, u, f);
                         v in r.follows ==> r.follows[v] == if v == u then g.follows[u] + fs else Following(g, v) {
        AddFriendsStepList(g, u, front, f, r0, v);
      }
      AddFriendsStepOrder(g, u, front, f, r0);
      AddFriend(r0, u, f)
  }

  /** One more `add_friend` adds f to the users ... */
  lemma AddFriendsStepKeys(g: Graph, u: string, front: seq<string>, f: string, r0: Graph)
    requires Valid(r0) && u in r0.follows
    requires forall v :: v in r0.follows <==> v in g.follows || v in front
    ensures forall v :: v in AddFriend(r0, u, f).follows <==> v in g.follows || v in front + [f]
  {
  }

  /** ... appends f to u's list and leaves the other lists alone ... */
  lemma AddFriendsStepList(g: Graph, u: string, front: seq<string>, f: string, r0: Graph, v: string)
    requires Valid(g) && u in g.follows && Valid(r0)
    requires forall w :: w in g.follows ==> w in r0.follows
    requires v in r0.follows ==> r0.follows[v] == if v == u then g.follows[u] + front else Following(g, v)
    ensures var r := AddFriend(r0, u, f);
            v in r.follows ==> r.follows[v] == if v == u then g.follows[u] + (front + [f]) else Following(g, v)
  {
    if v == u {
      AppendedList(g.follows[u], front, f);
    } else if v !in r0.follows {
      assert Following(g, v) == [];
    }
  }

  lemma AppendedList(a: seq<string>, front: seq<string>, f: string)
    ensures (a + front) + [f] == a + (front + [f])
  {
  }

  /** ... and appends f to the key order when it is new. */
  lemma AddFriendsStepOrder(g: Graph, u: string, front: seq<string>, f: string, r0: Graph)
    requires Valid(r0) && u in r0.follows
    requires r0.order == AppendNew(g.order, front)
    ensures AddFriend(r0, u, f).order == AppendNew(g.order, front + [f])
  {
    var fs := front + [f];
    assert fs[..|fs| - 1] == front;
    assert f in r0.order <==> f in r0.follows;
  }

  /** One line: `add_user` on its first token, then `add_friend` for each
      further token. */
  function LoadLine(g: Graph, line: seq<string>): (r: Graph)
    requires Valid(g) && |line| > 0
    ensures Valid(r)
    ensures forall v :: v in r.follows <==> v in g.follows || v in line
    ensures forall v :: v in r.follows ==> r.follows[v] == if v == line[0] then line[1..] else Following(g, v)
    ensures r.order == AppendNew(g.order, line)
  {
    var g1 := AddUser(g, line[0]);
    LoadLineFrame(g, line);
    LoadLineUsers(g, line);
    LoadLineUserOrder(g, line);
    AddFriends(g1, line[0], line[1..])
  }

  /** After a line, its user has exactly the rest of the line, and every
      other user keeps its list. */
  lemma LoadLineFrame(g: Graph, line: seq<string>)
    requires Valid(g) && |line| > 0
    ensures var r := AddFriends(AddUser(g, line[0]), line[0], line[1..]);
            forall v :: v in r.follows ==> r.follows[v] == if v == line[0] then line[1..] else Following(g, v)
  {
    var g1 := AddUser(g, line[0]);
    assert [] + line[1..] == line[1..];
    assert forall v :: v != line[0] ==> Following(g1, v) == Following(g, v);
  }

  /** After a line, the users are the old ones and the line's tokens ... */
  lemma LoadLineUsers(g: Graph, line: seq<string>)
    requires Valid(g) && |line| > 0
    ensures forall v :: v in AddFriends(AddUser(g, line[0]), line[0], line[1..]).follows <==> v in g.follows || v in line
  {
    assert line == [line[0]] + line[1..];
  }

  /** ... in order of first appearance. */
  lemma LoadLineUserOrder(g: Graph, line: seq<string>)
    requires Valid(g) && |line| > 0
    ensures AddFriends(AddUser(g, line[0]), line[0], line[1..]).order == AppendNew(g.order, line)
  {
    AppendNewOne(g.order, line[0]);
    AppendNewFirst(g.order, line);
  }

  /** A single name is appended unless already present. */
  lemma AppendNewOne(acc: seq<string>, x: string)
    ensures AppendNew(acc, [x]) == if x in acc then acc else acc + [x]
  {
    assert [x][..0] == [];
  }

  /** A line's first token and then the rest is the whole line. */
  lemma AppendNewFirst(acc: seq<string>, line: seq<string>)
    requires |line| > 0
    ensures AppendNew(AppendNew(acc, [line[0]]), line[1..]) == AppendNew(acc, line)
  {
    AppendNewConcat(acc, [line[0]], line[1..]);
    assert [line[0]] + line[1..] == line;
  }

  /** The users of a loaded file are its tokens. */
  lemma LoadLineKeys(lines: seq<seq<string>>, g0: Graph)
    requires WellFormed(lines) && |lines| > 0 && Valid(g0)
    requires forall u :: u in g0.follows <==> u in Tokens(lines[..|lines| - 1])
    ensures forall u :: u in LoadLine(g0, lines[|lines| - 1]).follows <==> u in Tokens(lines)
  {
    assert Tokens(lines) == Tokens(lines[..|lines| - 1]) + lines[|lines| - 1];
  }

  /** Users keep their first-appearance order. */
  lemma LoadLineOrder(lines: seq<seq<string>>, g0: Graph)
    requires WellFormed(lines) && |lines| > 0 && Valid(g0)
    requires g0.order == AppendNew([], Tokens(lines[..|lines| - 1]))
    ensures LoadLine(g0, lines[|lines| - 1]).order == AppendNew([], Tokens(lines))
  {
    AppendNewConcat([], Tokens(lines[..|lines| - 1]), lines[|lines| - 1]);
  }

  /** Each user's list is the one the file gives it. */
  lemma LoadLineList(lines: seq<seq<string>>, g0: Graph, u: string)
    requires WellFormed(lines) && |lines| > 0 && Valid(g0)
    requires u in g0.follows ==> g0.follows[u] == ListFromFile(lines[..|lines| - 1], u)
    requires u !in g0.follows ==> u !in Tokens(lines[..|lines| - 1])
    ensures var g := LoadLine(g0, lines[|lines| - 1]);
            u in g.follows ==> g.follows[u] == ListFromFile(lines, u)
  {
    var front, line := lines[..|lines| - 1], lines[|lines| - 1];
    assert WellFormed(front) by {
      forall i | 0 <= i < |front| ensures |front[i]| > 0 {
        assert front[i] == lines[i];
      }
    }
    var g := LoadLine(g0, line);
    if u in g.follows {
      assert g.follows[u] == if u == line[0] then line[1..] else Following(g0, u);
      assert Following(g0, u) == ListFromFile(front, u) by {
        if u !in g0.follows {
          NoLineAboutNonToken(front, u);
        }
      }
      ListFromFileStep(lines, u);
    }
  }

  /** The network a file of these lines describes. */
  function Load(lines: seq<seq<string>>): (g: Graph)
    requires WellFormed(lines)
    ensures Valid(g)
    ensures forall u :: u in g.follows <==> u in Tokens(lines)
    ensures forall u :: u in g.follows ==> g.follows[u] == ListFromFile(lines, u)
    ensures g.order == AppendNew([], Tokens(lines))
  {
    if |lines| == 0 then Empty()
    else
      var front, line := lines[..|lines| - 1], lines[|lines| - 1];
      var g0 := Load(front);
      LoadLineKeys(lines, g0);
      var g := LoadLine(g0, line);
      forall u ensures u in g.follows ==> g.follows[u] == ListFromFile(lines, u) {
        LoadLineList(lines, g0, u);
      }
      LoadLineOrder(lines, g0);
      g
  }
}
