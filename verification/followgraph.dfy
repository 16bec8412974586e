/** The directed "follows" graph of `SocialNetwork`: an insertion-ordered
    dictionary from each user to the list of users they follow. */
module FollowGraph {
  import opened Results

  /** `order` is the dictionary's key order, `follows` its contents. */
  datatype Graph = Graph(order: seq<string>, follows: map<string, seq<string>>)

  /** No element of s occurs twice. */
  ghost predicate Distinct(s: seq<string>)
  {
    forall i, j :: 0 <= i < j < |s| ==> s[i] != s[j]
  }

  /** The representation invariant: the key order lists each key exactly
      once, and every followee is itself a user. */
  ghost predicate Valid(g: Graph)
  {
    && Distinct(g.order)
    && (forall u :: u in g.follows <==> u in g.order)
    && (forall u, f :: u in g.follows && f in g.follows[u] ==> f in g.follows)
  }

  /** The follow-list of u, or the empty list when u is not a user. */
  function Following(g: Graph, u: string): seq<string>
  {
    if u in g.follows then g.follows[u] else []
  }

  /** The network as the constructor leaves it. */
  function Empty(): (g: Graph)
    ensures Valid(g)
    ensures forall u :: u !in g.follows
  {
    Graph([], map[])
  }

  /** All users, each once, in the order they were first added. */
  function ListUsers(g: Graph): (r: seq<string>)
    requires Valid(g)
    ensures forall u :: u in r <==> u in g.follows
    ensures Distinct(r)
  {
    g.order
  }

  /** Make u a user with an empty follow-list. An existing list is replaced,
      but the user keeps its place in the key order. */
  function AddUser(g: Graph, u: string): (r: Graph)
    requires Valid(g)
    ensures Valid(r)
    ensures u in r.follows && r.follows[u] == []
    ensures forall v :: v != u ==> (v in r.follows <==> v in g.follows)
    ensures forall v :: v != u && v in g.follows ==> r.follows[v] == g.follows[v]
    ensures u in g.follows ==> r.order == g.order
    ensures u !in g.follows ==> r.order == g.order + [u]
  {
    Graph(if u in g.follows then g.order else g.order + [u], g.follows[u := []])
  }

  /** Add u with an empty list only when u is not yet a user. */
  function EnsureUser(g: Graph, u: string): (r: Graph)
    requires Valid(g)
    ensures Valid(r)
    ensures u in r.follows
    ensures forall v :: v in g.follows ==> v in r.follows && r.follows[v] == g.follows[v]
    ensures forall v :: v in r.follows ==> v in g.follows || v == u
    ensures u !in g.follows ==> r.follows[u] == []
    ensures r.order == g.order + (if u in g.follows then [] else [u])
  {
    if u in g.follows then g else AddUser(g, u)
  }

  /** Append f to the list of u, both already users. */
  function AppendFollow(g: Graph, u: string, f: string): (r: Graph)
    requires Valid(g) && u in g.follows && f in g.follows
    ensures Valid(r)
    ensures r.order == g.order
    ensures forall v :: v in r.follows <==> v in g.follows
    ensures r.follows[u] == g.follows[u] + [f]
    ensures forall v :: v in g.follows && v != u ==> r.follows[v] == g.follows[v]
  {
    var r := Graph(g.order, g.follows[u := g.follows[u] + [f]]);
    assert forall v, w :: v in r.follows && w in r.follows[v] ==> w in r.follows by {
      forall v, w | v in r.follows && w in r.follows[v] ensures w in r.follows {
        if v == u && w !in g.follows[u] {
          assert w == f;
        }
      }
    }
    r
  }

  /** u starts following f; either is added first when missing. The list is
      appended to without removing duplicates. */
  function AddFriend(g: Graph, u: string, f: string): (r: Graph)
    requires Valid(g)
    ensures Valid(r)
    ensures u in r.follows && f in r.follows
    ensures r.follows[u] == Following(g, u) + [f]
    ensures forall v :: v in r.follows <==> v in g.follows || v == u || v == f
    ensures forall v :: v in g.follows && v != u ==> r.follows[v] == g.follows[v]
    ensures f !in g.follows && f != u ==> r.follows[f] == []
    ensures r.order == g.order + (if u in g.follows then [] else [u])
                               + (if f in g.follows || f == u then [] else [f])
  {
    var g1 := EnsureUser(g, u);
    var g2 := EnsureUser(g1, f);
    assert g2.follows[u] == Following(g, u);
    AppendFollow(g2, u, f)
  }

  /** The follow-list of u; asking about someone who is not a user is an error. */
  function GetFriends(g: Graph, u: string): (r: Result<seq<string>, Error>)
    requires Valid(g)
    ensures r.Success? <==> u in ListUsers(g)
    ensures r.Failure? ==> r.error == UnknownUser(u)
    ensures r.Success? ==> forall f :: f in r.value ==> f in ListUsers(g)
    ensures r.Success? ==> r.value == Following(g, u)
  {
    if u in g.follows then Success(g.follows[u]) else Failure(UnknownUser(u))
  }

  /** Adding a user that already follows someone discards those follows:
      `add_user` is an overwrite, not an "ensure present". */
  lemma AddUserDiscardsFollows()
    ensures var g := AddFriend(Empty(), "alice", "bob");
            && GetFriends(g, "alice") == Success(["bob"])
            && GetFriends(AddUser(g, "alice"), "alice") == Success([])
  {
    var g := AddFriend(Empty(), "alice", "bob");
    assert Following(Empty(), "alice") == [];
    assert g.follows["alice"] == ["bob"];
  }

  /** After u follows f, u's friends are exactly its earlier friends followed
      by f. */
  lemma AddFriendThenGetFriends(g: Graph, u: string, f: string)
    requires Valid(g)
    ensures GetFriends(AddFriend(g, u, f), u) == Success(Following(g, u) + [f])
  {
  }
}
