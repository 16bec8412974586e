# friend-recommender in Dafny

A model of `SocialNetwork` from `friend-recommender.py`: a directed "follows"
graph kept as a dictionary from user name to follow-list, a two-phase friend
suggestion (the other user with the highest Jaccard index, then that user's
most prolific followee the requester does not follow yet), the Graphviz
rendering `to_dot`, and the per-line fold of `create_network_from_file`.

Modules, in dependency order:

- `Results` (`results.dfy`): `Option`, `Result`, and the three ways a
  suggestion fails: `UnknownUser`, `NoSimilarUser` and `NoCandidate`.
- `Ratio` (`ratio.dfy`): exact non-negative fractions. `AtLeast` compares
  them by cross-multiplication, and a zero denominator stands for 0.
- `FollowGraph` (`followgraph.dfy`): the network is `Graph(order, follows)`.
  `order` is the dictionary's key order (insertion order) and `follows` maps
  each user to its follow-list. `Valid` says that the keys are exactly the
  distinct elements of `order` and that every followee is a user. The module
  models the constructor, `list_users`, `add_user`, `add_friend` and
  `get_friends`.
- `JaccardIndex` (`jaccard.dfy`): |A ∩ B| / |A ∪ B| over the sets two
  follow-lists name.
- `Argmax` (`argmax.dfy`): `max(d, key=d.get)` over a dictionary filled in a
  known order. It returns a maximal scorer, the first one among equals. It has
  a reference predicate `IsFirstBest` and a uniqueness lemma.
- `Recommend` (`recommend.dfy`): `suggest_friend`, split into phase 1
  (`MostSimilar`) and phase 2 (`BestCandidate`).
- `Dot` (`dot.dfy`): `to_dot`, written as the loop that builds its list of
  lines.
- `Loader` (`loader.dfy`): `create_network_from_file` applied to lines that
  are already split into tokens.
- `FileRoundTrip` (`roundtrip.dfy`): loading a file and then rendering it
  reproduces the file's edges.
- `Scenarios` (`scenarios.dfy`): worked examples, including the three-line
  file "alice bob carol" / "dave bob carol erin" / "francis bob".
- `Findings` (`findings.dfy`): the defective lines as written, each set
  beside the corrected behaviour.

Behaviour of the code that the model keeps:

- `add_user` (line 30) replaces an existing follow-list with an empty one
  (`AddUserDiscardsFollows`). It does not merely make sure the user exists.
- Line 97 scores a candidate by the number of users the candidate follows,
  while the comment at line 93 speaks of the "most followers".
  `Recommend.Popularity` counts the users followed, as line 97 does.
- Line 96 does not exclude the requester from phase 2, so the requester can
  be suggested to themselves (`RequesterCanBeSuggested`).
- On the three-line file, francis's most similar user is alice, who scores
  1/2 against dave's 1/3. The suggestion is carol (`ThreeLineSuggestion`).

As written, `suggest_friend` raises on every input (see Findings). The
operations `Recommend.MostSimilar`, `Recommend.BestCandidate` and
`Recommend.SuggestFriend` model the evident intent of lines 80-99 instead.
When there is no other user to compare with, the result is `NoSimilarUser`.
When the requester is not a user, the result is `UnknownUser`; this is the
`KeyError` at line 85. When phase 2 has no candidate, the result is
`NoCandidate`; this is the `ValueError` of `max` at line 99. The Jaccard
index of two empty lists counts as 0, where line 89 would divide by zero.

## Model

| member | source | states |
|---|---|---|
| FollowGraph.Empty | friend-recommender.py:5-9 | a new network is valid and has no users |
| FollowGraph.ListUsers | friend-recommender.py:11-17 | the listed names are exactly the users, each listed once |
| FollowGraph.AddUser | friend-recommender.py:19-30 | u gets an empty list; no other user's list changes; an existing u keeps its place in the key order; a new u goes to the end |
| FollowGraph.AddUserDiscardsFollows | friend-recommender.py:19-30 | adding a user again clears the follows it had |
| FollowGraph.EnsureUser | friend-recommender.py:48-52 | adds u with an empty list only when u is missing; existing lists are untouched |
| FollowGraph.AppendFollow | friend-recommender.py:53-54 | appends f to u's list and leaves users, order and other lists as they were |
| FollowGraph.AddFriend | friend-recommender.py:32-54 | u's list becomes its old list plus f at the end, duplicates kept; a missing u or f is added, u first, and a new f gets an empty list; nothing else changes; the graph stays valid |
| FollowGraph.GetFriends | friend-recommender.py:56-66 | succeeds exactly for users and returns that user's list, all of whose entries are users; an unknown name gives UnknownUser |
| FollowGraph.AddFriendThenGetFriends | friend-recommender.py:32-66 | after `add_friend(u, f)`, `get_friends(u)` succeeds and is the earlier list followed by f |
| Ratio.AtLeastIsValueOrder | friend-recommender.py:89-91 | the cross-multiplied comparison agrees with comparing the quotients as rationals |
| Ratio.AtLeastTotalPreorder | friend-recommender.py:91 | the score comparison `max` relies on is total and transitive |
| JaccardIndex.Jaccard | friend-recommender.py:85-89 | the index lies between 0 and 1 |
| JaccardIndex.JaccardIsOne | friend-recommender.py:85-89 | the index is 1 exactly when both lists name the same non-empty set of users |
| JaccardIndex.JaccardIsZero | friend-recommender.py:85-89 | the index is 0 exactly when the lists share no user, including when both are empty |
| Argmax.FirstBest | friend-recommender.py:91 | returns nothing exactly when no element is eligible; otherwise returns the first maximal eligible element (IsFirstBest) |
| Argmax.FirstBestUnique | friend-recommender.py:91 | at most one element is first best, so the selection is determined |
| Recommend.MostSimilar | friend-recommender.py:80-91 | succeeds exactly when the requester is a user and another user exists; the result is another user whose index is at least every other user's; every earlier key in order scores strictly less; NoSimilarUser exactly when there is no other user, otherwise UnknownUser |
| Recommend.BestCandidate | friend-recommender.py:93-99 | succeeds exactly when the similar user's list has an entry the requester does not follow; that entry follows at least as many users as any such entry; every earlier such entry follows strictly fewer; otherwise NoCandidate |
| Recommend.BestCandidateMaximal | friend-recommender.py:95-99 | the phase 2 pick's follow count is at least that of every eligible entry |
| Recommend.BestCandidateEarliest | friend-recommender.py:95-99 | every eligible entry before the pick follows strictly fewer users |
| Recommend.SoleCandidate | friend-recommender.py:95-99 | when one entry alone is unfollowed by the requester, phase 2 picks it, whatever the follow counts |
| Recommend.SuggestFriend | friend-recommender.py:68-99 | a suggestion is a user the requester does not follow, taken from the most similar user's list; NoCandidate exactly when that list holds only users the requester follows; phase 1 failures pass through unchanged |
| Recommend.SuggestFriendMeetsRule | friend-recommender.py:68-99 | the suggestion is c exactly when some s is the first most similar user and c is the first best candidate on s's list |
| Scenarios.NobodyFollowsAnyone | friend-recommender.py:80-99 | when no one follows anyone, phase 1 picks the first other key and the suggestion fails with NoCandidate |
| Scenarios.RequesterCanBeSuggested | friend-recommender.py:95-97 | a requester can be recommended to themselves |
| Scenarios.ThreeLinesLoaded | friend-recommender.py:113-130 | the three-line file loads to alice, bob, carol, dave, erin, francis with the listed follows |
| Scenarios.ThreeLineScores | friend-recommender.py:85-89 | francis scores 1/2 against alice, 1/3 against dave and 0 against the rest |
| Scenarios.ThreeLineMostSimilar | friend-recommender.py:80-91 | phase 1 picks alice for francis |
| Scenarios.ThreeLineSuggestion | friend-recommender.py:68-99 | carol is suggested to francis |
| Dot.EdgesFrom | friend-recommender.py:107-108 | the edges out of u pair u with each entry of its list, in list order |
| Dot.Edges | friend-recommender.py:106-108 | (u, f) is an edge exactly when u is a user and f is on u's list; there is one edge per list entry |
| Dot.EdgeCount | friend-recommender.py:106-108 | the number of edges is the total length of the follow-lists |
| Dot.EdgesComplete | friend-recommender.py:106-108 | an edge is present exactly when u is listed and f is on u's list |
| Dot.EdgeMultiplicity | friend-recommender.py:106-108 | each edge is rendered as often as f occurs on u's list, and never for a non-user |
| Dot.OutEdgeMultiplicity | friend-recommender.py:107-108 | the edges out of v contain (u, f) once per occurrence of f when u is v, and never otherwise |
| Dot.AppendEdgeLines | friend-recommender.py:107-108 | the inner loop keeps the lines it had and appends one edge line per entry, in order |
| Dot.ToDot | friend-recommender.py:101-110 | the three header lines come first and the closing brace last; between them is one line per edge, in key order and then list order |
| Loader.AppendNewKnown | friend-recommender.py:30 | assigning to keys that already exist leaves the key order unchanged |
| Loader.AppendNewFresh | friend-recommender.py:49-52 | distinct new keys join the key order at the end, in the order they are added |
| Loader.LastLineOf | friend-recommender.py:124-127 | finds the last line about u, or reports that no line is about u |
| Loader.ListFromFileStep | friend-recommender.py:124-129 | a new line replaces the list of its own user only |
| Loader.NoLineAboutNonToken | friend-recommender.py:124-129 | a name that is not a token of the file has no list |
| Loader.AddFriends | friend-recommender.py:128-129 | following each token of the line in turn appends them all to the user's list and adds the new names in order of first appearance |
| Loader.LoadLine | friend-recommender.py:125-129 | after a line, its user follows exactly the rest of the line; other lists are unchanged; new names are appended in order |
| Loader.LoadLineKeys | friend-recommender.py:124-129 | after each line, the users are the tokens read so far |
| Loader.LoadLineOrder | friend-recommender.py:124-129 | after each line, the key order is the tokens' order of first appearance |
| Loader.LoadLineList | friend-recommender.py:124-129 | after each line, each user's list is the rest of the last line about it |
| Loader.Load | friend-recommender.py:113-130 | the loaded network is valid; its users are the file's tokens in order of first appearance; each user follows the rest of the last line it starts, or nobody |
| FileRoundTrip.FileEdgeMultiplicity | friend-recommender.py:124-129 | with one line per user, the file lists (u, f) as often as f occurs in u's loaded list |
| FileRoundTrip.EdgeCountsAgree | friend-recommender.py:101-130 | with one line per user, each single edge is rendered exactly as often as the file lists it |
| FileRoundTrip.LoadThenRender | friend-recommender.py:101-130 | with one line per user, the rendered edges of the loaded network are the file's edges with the same multiplicities |
| Findings.AddFriendAsWritten | friend-recommender.py:48-54 | lines 49-54 as written: NameError exactly when the follower is not yet a user; otherwise adding a missing followee and appending it gives the same network as AddFriend |
| Findings.AddFriendAsWrittenRejectsNewFollower | friend-recommender.py:49-50 | on an empty network, alice following bob raises as written; the corrected operation gives alice the list [bob] |
| Findings.JaccardQuotientAsWritten | friend-recommender.py:85-89 | the quotient fails exactly when both lists are empty; otherwise it equals the Jaccard index |
| Findings.JaccardQuotientAsWrittenDividesByZero | friend-recommender.py:89 | two empty lists divide by zero; the corrected index is 0 |
| Findings.Phase1AsWritten | friend-recommender.py:82-91 | with lines 87 and 89 read as intended and `max` inside the loop as written, the scan raises ValueError exactly when the requester is the first key; otherwise it agrees with FirstBest over the keys seen so far |
| Findings.MostSimilarAsWritten | friend-recommender.py:80-91 | with lines 87 and 89 read as intended and line 91 as written, phase 1 fails exactly when the requester is the first key; otherwise it agrees with MostSimilar |
| Findings.MostSimilarAsWrittenFailsForFirstKey | friend-recommender.py:91 | with lines 87 and 89 read as intended, alice as first key makes line 91 raise, while the corrected phase picks bob |
| Findings.SuggestFriendAsWritten | friend-recommender.py:68-99 | as written, every call raises: NameError exactly for an empty network (line 95), ValueError exactly when the requester is the first key (line 91), KeyError exactly for an unknown requester otherwise (line 85), AttributeError exactly for a known requester that is not the first key (line 87) |
| Findings.SuggestFriendAsWrittenNeverReturns | friend-recommender.py:87 | on the three-line network the call for francis raises as written, while the corrected rule suggests carol |

## Left out

- File I/O: `open`, `readlines`, `strip` and `split` are not modelled. `Loader.Load` receives the lines already split into tokens and requires every line to have at least one token. An empty line would make `users[0]` raise `IndexError`.
- `main` (lines 133-140) and its `print` calls are not modelled. The file name is not modelled either.
- `to_dot` is modelled up to its list of lines. The final `'\n'.join` is not modelled, and names are inserted into the edge text without quoting, as `format` does.
- Floating-point division: the Jaccard index is an exact fraction. Two float quotients that are mathematically different could round to the same value and change a tie-break. This is not modelled.
- Python exceptions become values: `Results.Error` for the corrected operations and `Findings.Fault` for the code as written. The exception messages are not modelled.
- The network is an immutable value. Each operation returns a new graph instead of mutating `self.users`.
- An empty network: the code as written reaches line 95 with `most_similar` unbound. The corrected model reports NoSimilarUser.

## Findings

| source | as written | input that shows it | evidently intended | confidence | as-written member | corrected member |
|---|---|---|---|---|---|---|
| friend-recommender.py:50 | `self.users[users] = []` names an undefined variable `users` | `add_friend("alice", "bob")` on an empty network raises NameError | `self.users[user] = []` | high, not executed | Findings.AddFriendAsWrittenRejectsNewFollower | FollowGraph.AddFriend |
| friend-recommender.py:87 | `len(set(...)).union(...)` calls `union` on an int | `suggest_friend("francis")` on the three-line network raises AttributeError | `len(set(a).union(set(b)))` | high, not executed | Findings.SuggestFriendAsWrittenNeverReturns | Recommend.SuggestFriend |
| friend-recommender.py:89 | divides by the union size, which is 0 when both users follow nobody | once line 87 is fixed, two users with empty lists raise ZeroDivisionError | score 0 when the union is empty | medium, not executed | Findings.JaccardQuotientAsWrittenDividesByZero | JaccardIndex.JaccardIsZero |
| friend-recommender.py:91 | `max` is indented inside the loop, so it runs on an empty dictionary when the requester is the first key | requester alice as the first key, with bob the only other user, raises ValueError (that first iteration skips lines 85-89, so neither line 87 nor line 89 runs first) | one `max` after the loop | high, not executed | Findings.MostSimilarAsWrittenFailsForFirstKey | Recommend.MostSimilar |
