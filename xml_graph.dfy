/** GUI/XMLGRAPH.py: the adjacency-list `Graph` class and `parse_xml_to_graph`, which reads a
    users document line by line and adds one edge follower -> user per follower id. */
module XmlGraph {
  import opened Common
  import opened PyStr

  // ---------------------------------------------------------------------------------------------
  // The adjacency list as a value

  /** The `adjacency_list` dict: its keys in insertion order, and the neighbour list of each. */
  datatype Adjacency<T(==,!new)> = Adjacency(order: seq<T>, lists: map<T, seq<T>>)

  /** What the dict always satisfies: every key listed once, in `order`, and every neighbour is
      itself a key (`add_edge` adds both endpoints). */
  ghost predicate WellFormed<T(!new)>(g: Adjacency<T>)
  {
    Distinct(g.order) && (forall n :: n in g.lists <==> n in g.order)
    && forall k, t :: k in g.lists && t in g.lists[k] ==> t in g.lists
  }

  /** `adjacency_list.get(node, [])`. */
  function Neighbours<T(==,!new)>(g: Adjacency<T>, n: T): seq<T>
  {
    if n in g.lists then g.lists[n] else []
  }

  /** `list.count(x)`. */
  function Count<T(==,!new)>(s: seq<T>, x: T): nat
  {
    multiset(s)[x]
  }

  /** The dict after `add_node(n)`. */
  function WithNode<T(==,!new)>(g: Adjacency<T>, n: T): (r: Adjacency<T>)
    ensures n in r.lists && g.lists.Keys <= r.lists.Keys
    ensures WellFormed(g) ==> WellFormed(r)
  {
    if n in g.lists then g else Adjacency(g.order + [n], g.lists[n := []])
  }

  /** The dict after `add_edge(from, to)`: both endpoints are keys, and `to` is appended to the list
      of `from`, even when it is already there. */
  function WithEdge<T(==,!new)>(g: Adjacency<T>, from: T, to: T): (r: Adjacency<T>)
    ensures from in r.lists && to in r.lists && g.lists.Keys <= r.lists.Keys
    ensures WellFormed(g) ==> WellFormed(r)
  {
    var h := WithNode(WithNode(g, from), to);
    Adjacency(h.order, h.lists[from := h.lists[from] + [to]])
  }

  /** The sum of `lists[k].count(x)` over the keys `order`. */
  function InSum<T(==,!new)>(order: seq<T>, lists: map<T, seq<T>>, x: T): nat
  {
    if order == [] then 0
    else
      var k := order[|order| - 1];
      InSum(order[..|order| - 1], lists, x) + if k in lists then Count(lists[k], x) else 0
  }

  /** `get_in_degree(x)`. */
  function InDegree<T(==,!new)>(g: Adjacency<T>, x: T): nat
  {
    InSum(g.order, g.lists, x)
  }

  /** The keys among `order` whose list holds `x`, in that order. */
  function FollowersIn<T(==,!new)>(order: seq<T>, lists: map<T, seq<T>>, x: T): seq<T>
  {
    if order == [] then []
    else
      var k := order[|order| - 1];
      FollowersIn(order[..|order| - 1], lists, x) + if k in lists && Count(lists[k], x) != 0 then [k] else []
  }

  /** `get_followers(x)`. */
  function Followers<T(==,!new)>(g: Adjacency<T>, x: T): seq<T>
  {
    FollowersIn(g.order, g.lists, x)
  }

  // ---------------------------------------------------------------------------------------------
  // The class

  /** `class Graph`: the dict is kept as its key order and its lists, both reassigned in place. */
  class Graph<T(==,!new)> {
    var order: seq<T>
    var lists: map<T, seq<T>>

    function Value(): Adjacency<T>
      reads this
    {
      Adjacency(order, lists)
    }

    ghost predicate Valid()
      reads this
    {
      WellFormed(Value())
    }

    /** `__init__`: an empty dict. */
    constructor()
      ensures Valid() && order == [] && lists == map[]
    {
      order := [];
      lists := map[];
    }

    /** `add_node(node)`: a new key with an empty list; nothing changes for a known node. */
    method AddNode(node: T)
      modifies this
      ensures Value() == WithNode(old(Value()), node)
      ensures old(Valid()) ==> Valid()
      ensures node in old(lists) ==> order == old(order) && lists == old(lists)
      ensures node !in old(lists) ==> lists[node] == [] && order == old(order) + [node]
    {
      if node !in lists {
        order := order + [node];
        lists := lists[node := []];
      }
    }

    /** `add_edge(from_node, to_node)`. */
    method AddEdge(from: T, to: T)
      modifies this
      ensures Value() == WithEdge(old(Value()), from, to)
      ensures old(Valid()) ==> Valid()
      ensures from in lists && to in lists
      ensures lists[from] == old(Neighbours(Value(), from)) + [to]
      ensures forall k :: k in old(lists) && k != from ==> lists[k] == old(lists[k])
    {
      if from !in lists {
        AddNode(from);
      }
      if to !in lists {
        AddNode(to);
      }
      lists := lists[from := lists[from] + [to]];
    }

    /** `get_neighbors(node)`: the list of a known node, `[]` for any other. */
    method GetNeighbors(node: T) returns (r: seq<T>)
      ensures r == Neighbours(Value(), node)
      ensures node !in lists ==> r == []
    {
      if node in lists {
        r := lists[node];
      } else {
        r := [];
      }
    }

    /** `get_in_degree(node)`: the occurrences of `node` summed over the lists, in key order. */
    method GetInDegree(node: T) returns (inDegree: nat)
      requires Valid()
      ensures inDegree == InDegree(Value(), node)
    {
      inDegree := 0;
      for i := 0 to |order|
        invariant inDegree == InSum(order[..i], lists, node)
      {
        assert order[..i + 1][..i] == order[..i];
        inDegree := inDegree + Count(lists[order[i]], node);
      }
      assert order[..|order|] == order;
    }

    /** `get_followers(node)`: the keys whose list holds `node`, in key order. */
    method GetFollowers(node: T) returns (r: seq<T>)
      requires Valid()
      ensures r == Followers(Value(), node)
    {
      r := [];
      for i := 0 to |order|
        invariant r == FollowersIn(order[..i], lists, node)
      {
        assert order[..i + 1][..i] == order[..i];
        if Count(lists[order[i]], node) != 0 {
          r := r + [order[i]];
        }
      }
      assert order[..|order|] == order;
    }

    /** `get_out_degree(node)`: the length of its list, 0 for an unknown node. */
    method GetOutDegree(node: T) returns (r: nat)
      ensures r == |Neighbours(Value(), node)|
      ensures node !in lists ==> r == 0
    {
      r := if node in lists then |lists[node]| else 0;
    }

    /** `get_degree(node)`: in-degree plus out-degree. */
    method GetDegree(node: T) returns (r: nat)
      requires Valid()
      ensures r == InDegree(Value(), node) + |Neighbours(Value(), node)|
    {
      var inDegree := GetInDegree(node);
      var outDegree := GetOutDegree(node);
      r := inDegree + outDegree;
    }

    /** `get_all_nodes()`: the keys in insertion order, each once. */
    method GetAllNodes() returns (r: seq<T>)
      requires Valid()
      ensures r == order
      ensures Distinct(r) && forall n :: n in r <==> n in lists
    {
      r := order;
    }
  }

  // ---------------------------------------------------------------------------------------------
  // Properties of the graph operations

  /** Adding a node twice is adding it once. */
  lemma AddNodeIdempotent<T(!new)>(g: Adjacency<T>, n: T)
    ensures WithNode(WithNode(g, n), n) == WithNode(g, n)
    ensures n !in g.lists ==> Neighbours(WithNode(g, n), n) == []
  {
  }

  /** `add_edge` appends to the list of `from` and leaves every other list as it was. */
  lemma EdgeLists<T(!new)>(g: Adjacency<T>, from: T, to: T, k: T)
    ensures Neighbours(WithEdge(g, from, to), k)
      == if k == from then Neighbours(g, from) + [to] else Neighbours(g, k)
  {
  }

  /** A key outside `order` does not take part in the sum. */
  lemma {:induction false} InSumOutside<T(!new)>(order: seq<T>, lists: map<T, seq<T>>, x: T, f: T, s: seq<T>)
    requires f !in order
    ensures InSum(order, lists[f := s], x) == InSum(order, lists, x)
  {
    if order != [] {
      InSumOutside(order[..|order| - 1], lists, x, f, s);
    }
  }

  /** Replacing the list of a key listed once changes the sum by the difference of its counts. */
  lemma {:induction false} InSumUpdate<T(!new)>(order: seq<T>, lists: map<T, seq<T>>, x: T, f: T, s: seq<T>)
    requires Distinct(order) && f in order && f in lists
    ensures InSum(order, lists[f := s], x) + Count(lists[f], x) == InSum(order, lists, x) + Count(s, x)
  {
    var n := |order|;
    var front := order[..n - 1];
    if order[n - 1] == f {
      assert f !in front;
      InSumOutside(front, lists, x, f, s);
    } else {
      assert f in front;
      InSumUpdate(front, lists, x, f, s);
    }
  }

  /** A new node comes with no edges, so no in-degree changes. */
  lemma InDegreeWithNode<T(!new)>(g: Adjacency<T>, n: T, x: T)
    requires WellFormed(g)
    ensures InDegree(WithNode(g, n), x) == InDegree(g, x)
  {
    if n !in g.lists {
      assert (g.order + [n])[..|g.order|] == g.order;
      InSumOutside(g.order, g.lists, x, n, []);
    }
  }

  /** `add_edge(from, to)` raises the in-degree of `to` by one and leaves every other in-degree as
      it was. */
  lemma InDegreeWithEdge<T(!new)>(g: Adjacency<T>, from: T, to: T, x: T)
    requires WellFormed(g)
    ensures InDegree(WithEdge(g, from, to), x) == InDegree(g, x) + if x == to then 1 else 0
  {
    var h1 := WithNode(g, from);
    var h := WithNode(h1, to);
    InDegreeWithNode(g, from, x);
    InDegreeWithNode(h1, to, x);
    InSumUpdate(h.order, h.lists, x, from, h.lists[from] + [to]);
    assert multiset(h.lists[from] + [to]) == multiset(h.lists[from]) + multiset{to};
  }

  /** The keys `get_followers` lists are exactly those whose list holds `x`. */
  lemma {:induction false} FollowersMembers<T(!new)>(order: seq<T>, lists: map<T, seq<T>>, x: T)
    ensures forall k :: k in FollowersIn(order, lists, x) <==> k in order && k in lists && x in lists[k]
  {
    if order != [] {
      FollowersMembers(order[..|order| - 1], lists, x);
      assert order == order[..|order| - 1] + [order[|order| - 1]];
    }
  }

  /** Each key is listed at most once. */
  lemma {:induction false} FollowersDistinct<T(!new)>(order: seq<T>, lists: map<T, seq<T>>, x: T)
    requires Distinct(order)
    ensures Distinct(FollowersIn(order, lists, x))
  {
    if order != [] {
      var front := order[..|order| - 1];
      FollowersDistinct(front, lists, x);
      FollowersMembers(front, lists, x);
      assert order[|order| - 1] !in front;
    }
  }

  /** Every element of `r` is in `order`, and they come in the order of their positions there. */
  ghost predicate InOrder<T(!new)>(order: seq<T>, r: seq<T>)
  {
    (forall k :: k in r ==> k in order)
    && forall i, j :: 0 <= i < j < |r| ==> Position(order, r[i]) < Position(order, r[j])
  }

  /** The keys are listed in insertion order. */
  lemma {:induction false} FollowersOrdered<T(!new)>(order: seq<T>, lists: map<T, seq<T>>, x: T)
    requires Distinct(order)
    ensures InOrder(order, FollowersIn(order, lists, x))
  {
    if order != [] {
      var n := |order|;
      var front := order[..n - 1];
      var k := order[n - 1];
      var p := FollowersIn(front, lists, x);
      var r := FollowersIn(order, lists, x);
      FollowersOrdered(front, lists, x);
      assert order == front + [k];
      assert k !in front;
      PositionLast(front, k);
      assert r == p || r == p + [k];
      forall i, j | 0 <= i < j < |r|
        ensures Position(order, r[i]) < Position(order, r[j])
      {
        assert r[i] == p[i];
        PositionPrefix(front, k, r[i]);
        if j < |p| {
          assert r[j] == p[j];
          PositionPrefix(front, k, r[j]);
        }
      }
    }
  }

  /** There are never more followers than incoming edges, and none exactly when there is none. */
  lemma {:induction false} FollowersCount<T(!new)>(order: seq<T>, lists: map<T, seq<T>>, x: T)
    ensures |FollowersIn(order, lists, x)| <= InSum(order, lists, x)
    ensures FollowersIn(order, lists, x) == [] <==> InSum(order, lists, x) == 0
  {
    if order != [] {
      FollowersCount(order[..|order| - 1], lists, x);
    }
  }

  /** `get_followers(x)` lists exactly the nodes whose list holds `x`, each once and in insertion
      order, and is empty exactly when the in-degree of `x` is 0. */
  lemma FollowersExact<T(!new)>(g: Adjacency<T>, x: T)
    requires WellFormed(g)
    ensures forall k :: k in Followers(g, x) <==> k in g.lists && x in g.lists[k]
    ensures Distinct(Followers(g, x))
    ensures InOrder(g.order, Followers(g, x))
    ensures |Followers(g, x)| <= InDegree(g, x)
    ensures Followers(g, x) == [] <==> InDegree(g, x) == 0
  {
    FollowersMembers(g.order, g.lists, x);
    FollowersDistinct(g.order, g.lists, x);
    FollowersOrdered(g.order, g.lists, x);
    FollowersCount(g.order, g.lists, x);
  }

  // ---------------------------------------------------------------------------------------------
  // parse_xml_to_graph

  /** A graph node: a user id string, or `None` (the key `current_user` holds outside a user). */
  type UserKey = Option<string>

  /** One `post_topics` entry: `{'body': ..., 'topics': ...}`. */
  datatype PostTopics = PostTopics(body: string, topics: seq<string>)

  /** The lists bound at each `<user>` line: `followers`, `current_posts`, `current_topics`. */
  datatype UserLists = UserLists(followers: seq<string>, currentPosts: seq<string>, currentTopics: seq<string>)

  /** The dictionaries returned next to the graph. */
  datatype Tables = Tables(posts: map<UserKey, seq<string>>, userTopics: map<UserKey, seq<string>>,
                           postTopics: seq<PostTopics>, names: map<UserKey, string>)

  /** The loop variables between two lines. A list Python has not bound yet is `None`; reading it
      raises `NameError`. */
  datatype LineState = LineState(graph: Adjacency<UserKey>, tables: Tables, currentUser: UserKey,
                                 insideBody: bool, bodyContent: string,
                                 insideTopic: bool, topicContent: string,
                                 user: Option<UserLists>, currTopics: Option<seq<string>>)

  function Initial(): LineState
  {
    LineState(Adjacency([], map[]), Tables(map[], map[], [], map[]), None, false, [], false, [], None, None)
  }

  /** The branch of the `if`/`elif` chain a stripped line takes. */
  datatype LineKind =
    | UserOpen | UserId | PostOpen | Name | BodyOpen | BodyClose | TopicOpen | TopicClose | PostClose
    | TopicText | BodyText | FollowerId | UserClose | Other

  /** The `if`/`elif` chain of the loop, in its order. */
  function Classify(line: string, currentUser: UserKey, insideBody: bool, insideTopic: bool): LineKind
  {
    if StartsWith(line, "<user>") then UserOpen
    else if StartsWith(line, "<id>") && currentUser == None then UserId
    else if StartsWith(line, "<post>") then PostOpen
    else if StartsWith(line, "<name>") then Name
    else if StartsWith(line, "<body>") then BodyOpen
    else if StartsWith(line, "</body>") && insideBody then BodyClose
    else if StartsWith(line, "<topic>") then TopicOpen
    else if StartsWith(line, "</topic>") && insideTopic then TopicClose
    else if StartsWith(line, "</post>") then PostClose
    else if insideTopic then TopicText
    else if insideBody then BodyText
    else if StartsWith(line, "<id>") then FollowerId
    else if StartsWith(line, "</user>") then UserClose
    else Other
  }

  /** `line.replace(open, "").replace(close, "").strip()`. */
  function Unwrap(line: string, open: string, close: string): string
  {
    Strip(Replace(Replace(line, open, []), close, []))
  }

  /** One `graph.add_edge(follower, user)` per follower, in list order. */
  function AddFollowerEdges(g: Adjacency<UserKey>, followers: seq<string>, user: UserKey): Adjacency<UserKey>
  {
    if followers == [] then g
    else WithEdge(AddFollowerEdges(g, followers[..|followers| - 1], user), Some(followers[|followers| - 1]), user)
  }

  const NameError := "NameError"

  /** The body of the `for line in lines` loop: what each branch does to the variables. */
  function LineStep(st: LineState, raw: string): Result<LineState>
  {
    var line := Strip(raw);
    var t := st.tables;
    match Classify(line, st.currentUser, st.insideBody, st.insideTopic)
    case UserOpen =>
      Ok(st.(user := Some(UserLists([], [], []))))
    case UserId =>
      var id := Unwrap(line, "<id>", "</id>");
      Ok(st.(currentUser := Some(id), graph := WithNode(st.graph, Some(id))))
    case PostOpen =>
      Ok(st.(bodyContent := [], currTopics := Some([])))
    case Name =>
      Ok(st.(tables := t.(names := t.names[st.currentUser := Unwrap(line, "<name>", "</name>")])))
    case BodyOpen =>
      Ok(st.(insideBody := true, bodyContent := []))
    case BodyClose =>
      if st.user == None then Err(NameError)
      else
        var u := st.user.value;
        Ok(st.(insideBody := false, user := Some(u.(currentPosts := u.currentPosts + [Strip(st.bodyContent)]))))
    case TopicOpen =>
      Ok(st.(insideTopic := true, topicContent := []))
    case TopicClose =>
      if st.user == None || st.currTopics == None then Err(NameError)
      else
        var u := st.user.value;
        var topic := Strip(st.topicContent);
        Ok(st.(insideTopic := false, user := Some(u.(currentTopics := u.currentTopics + [topic])),
               currTopics := Some(st.currTopics.value + [topic])))
    case PostClose =>
      if st.currTopics == None then Err(NameError)
      else if st.currTopics.value == [] then Ok(st)
      else
        var entry := PostTopics(Strip(st.bodyContent), st.currTopics.value);
        Ok(st.(tables := t.(postTopics := t.postTopics + [entry])))
    case TopicText =>
      Ok(st.(topicContent := st.topicContent + line + " "))
    case BodyText =>
      Ok(st.(bodyContent := st.bodyContent + line + " "))
    case FollowerId =>
      if st.user == None then Err(NameError)
      else
        var u := st.user.value;
        Ok(st.(user := Some(u.(followers := u.followers + [Unwrap(line, "<id>", "</id>")]))))
    case UserClose =>
      if st.user == None then Err(NameError)
      else
        var u := st.user.value;
        var posts := if u.currentPosts != [] then t.posts[st.currentUser := u.currentPosts] else t.posts;
        var topics := if u.currentTopics != [] then t.userTopics[st.currentUser := u.currentTopics] else t.userTopics;
        Ok(st.(graph := AddFollowerEdges(st.graph, u.followers, st.currentUser),
               tables := t.(posts := posts, userTopics := topics), currentUser := None))
    case Other =>
      Ok(st)
  }

  /** The state after the first `n` lines, or the `NameError` that stopped the loop. */
  function RunLines(lines: seq<string>, n: nat): Result<LineState>
    requires n <= |lines|
  {
    if n == 0 then Ok(Initial())
    else
      var prev := RunLines(lines, n - 1);
      if prev.Err? then prev else LineStep(prev.value, lines[n - 1])
  }

  /** `parse_xml_to_graph` on the lines of `input_file.splitlines()`: the graph and the tables. */
  function ParseToGraph(lines: seq<string>): Result<(Adjacency<UserKey>, Tables)>
  {
    var r := RunLines(lines, |lines|);
    if r.Err? then Err(r.error) else Ok((r.value.graph, r.value.tables))
  }

  /** Once a line raises, the loop is over. */
  lemma {:induction false} RunLinesErrStays(lines: seq<string>, i: nat, n: nat)
    requires i <= n <= |lines|
    ensures RunLines(lines, i).Err? ==> RunLines(lines, n) == RunLines(lines, i)
    decreases n
  {
    if i < n {
      RunLinesErrStays(lines, i, n - 1);
    }
  }

  /** The graph a line leaves behind: a new node for the user's id, the follower edges at
      `</user>`, and the graph unchanged for every other line. */
  lemma LineStepGraph(st: LineState, raw: string)
    requires LineStep(st, raw).Ok?
    ensures var line := Strip(raw);
      LineStep(st, raw).value.graph ==
        match Classify(line, st.currentUser, st.insideBody, st.insideTopic)
        case UserId => WithNode(st.graph, Some(Unwrap(line, "<id>", "</id>")))
        case UserClose => AddFollowerEdges(st.graph, st.user.value.followers, st.currentUser)
        case _ => st.graph
  {
  }

  /** `parse_xml_to_graph(input_file)`, over the lines of the input. */
  method ParseXmlToGraph(lines: seq<string>) returns (graph: Graph<UserKey>, r: Result<Tables>)
    ensures fresh(graph)
    ensures ParseToGraph(lines).Err? <==> r.Err?
    ensures r.Ok? ==> ParseToGraph(lines) == Ok((graph.Value(), r.value))
  {
    graph := new Graph();
    var tables := Tables(map[], map[], [], map[]);
    var currentUser: UserKey := None;
    var insideBody := false;
    var bodyContent: string := [];
    var insideTopic := false;
    var topicContent: string := [];
    var user: Option<UserLists> := None;
    var currTopics: Option<seq<string>> := None;
    for i := 0 to |lines|
      invariant RunLines(lines, i) == Ok(LineState(graph.Value(), tables, currentUser, insideBody, bodyContent,
                                                  insideTopic, topicContent, user, currTopics))
    {
      var st := LineState(graph.Value(), tables, currentUser, insideBody, bodyContent,
                          insideTopic, topicContent, user, currTopics);
      var next := LineStep(st, lines[i]);
      if next.Err? {
        RunLinesErrStays(lines, i + 1, |lines|);
        r := Err(next.error);
        return;
      }
      LineStepGraph(st, lines[i]);
      var line := Strip(lines[i]);
      match Classify(line, currentUser, insideBody, insideTopic) {
        case UserId =>
          graph.AddNode(Some(Unwrap(line, "<id>", "</id>")));
        case UserClose =>
          AddFollowerEdgesLoop(graph, user.value.followers, currentUser);
        case _ =>
      }
      tables := next.value.tables;
      currentUser := next.value.currentUser;
      insideBody := next.value.insideBody;
      bodyContent := next.value.bodyContent;
      insideTopic := next.value.insideTopic;
      topicContent := next.value.topicContent;
      user := next.value.user;
      currTopics := next.value.currTopics;
    }
    r := Ok(tables);
  }

  /** `for follower in followers: graph.add_edge(follower, current_user)`. */
  method AddFollowerEdgesLoop(graph: Graph<UserKey>, followers: seq<string>, user: UserKey)
    modifies graph
    ensures graph.Value() == AddFollowerEdges(old(graph.Value()), followers, user)
  {
    ghost var g0 := graph.Value();
    for j := 0 to |followers|
      invariant graph.Value() == AddFollowerEdges(g0, followers[..j], user)
    {
      assert followers[..j + 1][..j] == followers[..j];
      graph.AddEdge(Some(followers[j]), user);
    }
    assert followers[..|followers|] == followers;
  }

  // ---------------------------------------------------------------------------------------------
  // Properties of parse_xml_to_graph

  lemma {:induction false} FollowerEdgesWellFormed(g: Adjacency<UserKey>, followers: seq<string>, user: UserKey)
    requires WellFormed(g)
    ensures WellFormed(AddFollowerEdges(g, followers, user))
  {
    if followers != [] {
      FollowerEdgesWellFormed(g, followers[..|followers| - 1], user);
    }
  }

  /** At `</user>`, the in-degree of the current user grows by the number of followers, and no
      other in-degree changes. */
  lemma {:induction false} FollowerEdgesInDegree(g: Adjacency<UserKey>, followers: seq<string>, user: UserKey, x: UserKey)
    requires WellFormed(g)
    ensures InDegree(AddFollowerEdges(g, followers, user), x) == InDegree(g, x) + if x == user then |followers| else 0
  {
    if followers != [] {
      var n := |followers|;
      FollowerEdgesWellFormed(g, followers[..n - 1], user);
      FollowerEdgesInDegree(g, followers[..n - 1], user, x);
      InDegreeWithEdge(AddFollowerEdges(g, followers[..n - 1], user), Some(followers[n - 1]), user, x);
    }
  }

  /** At `</user>`, every follower's list ends up holding the user. */
  lemma {:induction false} FollowerEdgesListed(g: Adjacency<UserKey>, followers: seq<string>, user: UserKey)
    ensures forall f :: f in followers ==> user in Neighbours(AddFollowerEdges(g, followers, user), Some(f))
  {
    if followers != [] {
      var n := |followers|;
      var front := followers[..n - 1];
      var h := AddFollowerEdges(g, front, user);
      FollowerEdgesListed(g, front, user);
      forall f | f in followers
        ensures user in Neighbours(AddFollowerEdges(g, followers, user), Some(f))
      {
        EdgeLists(h, Some(followers[n - 1]), user, Some(f));
        if f != followers[n - 1] {
          assert f in front;
        }
      }
    }
  }

  /** What holds between any two lines: the graph is well formed, and the tables hold no empty
      entry (`posts` only for users with a body, `user_topics` only for users with a topic,
      `post_topics` only for posts with a topic). */
  ghost predicate Sound(st: LineState)
  {
    WellFormed(st.graph)
    && (forall u :: u in st.tables.posts ==> st.tables.posts[u] != [])
    && (forall u :: u in st.tables.userTopics ==> st.tables.userTopics[u] != [])
    && (forall i :: 0 <= i < |st.tables.postTopics| ==> st.tables.postTopics[i].topics != [])
  }

  lemma LineStepSound(st: LineState, raw: string)
    requires Sound(st)
    ensures LineStep(st, raw).Ok? ==> Sound(LineStep(st, raw).value)
  {
    if LineStep(st, raw).Ok? {
      var line := Strip(raw);
      var next := LineStep(st, raw).value;
      LineStepGraph(st, raw);
      match Classify(line, st.currentUser, st.insideBody, st.insideTopic)
      case UserClose =>
        FollowerEdgesWellFormed(st.graph, st.user.value.followers, st.currentUser);
      case PostClose =>
        assert forall i :: 0 <= i < |next.tables.postTopics| ==> next.tables.postTopics[i].topics != [];
      case _ =>
    }
  }

  lemma {:induction false} RunLinesSound(lines: seq<string>, n: nat)
    requires n <= |lines|
    ensures RunLines(lines, n).Ok? ==> Sound(RunLines(lines, n).value)
  {
    if n > 0 {
      RunLinesSound(lines, n - 1);
      var prev := RunLines(lines, n - 1);
      if prev.Ok? {
        LineStepSound(prev.value, lines[n - 1]);
      }
    }
  }

  /** The graph `parse_xml_to_graph` returns is well formed, and its tables hold no empty entry. */
  lemma ParsedSound(lines: seq<string>)
    ensures ParseToGraph(lines).Ok? ==> WellFormed(ParseToGraph(lines).value.0)
    ensures ParseToGraph(lines).Ok? ==> var t := ParseToGraph(lines).value.1;
      && (forall u :: u in t.posts ==> t.posts[u] != [])
      && (forall u :: u in t.userTopics ==> t.userTopics[u] != [])
      && (forall i :: 0 <= i < |t.postTopics| ==> t.postTopics[i].topics != [])
  {
    RunLinesSound(lines, |lines|);
  }

  /** The first `<id>` line while no user is current makes that id the current user and a node. */
  lemma UserIdLine(st: LineState, raw: string)
    requires StartsWith(Strip(raw), "<id>") && st.currentUser == None
    ensures LineStep(st, raw).Ok?
    ensures var id := Unwrap(Strip(raw), "<id>", "</id>");
      LineStep(st, raw).value.currentUser == Some(id) && Some(id) in LineStep(st, raw).value.graph.lists
  {
    var line := Strip(raw);
    assert line[1] == "<id>"[1] == 'i';
    assert Classify(line, st.currentUser, st.insideBody, st.insideTopic) == UserId;
  }

  /** A later `<id>` line, outside a body and a topic, records a follower and adds no node. */
  lemma FollowerIdLine(st: LineState, raw: string)
    requires StartsWith(Strip(raw), "<id>") && st.currentUser != None && st.user.Some?
    requires !st.insideBody && !st.insideTopic
    ensures LineStep(st, raw).Ok?
    ensures LineStep(st, raw).value.graph == st.graph
    ensures LineStep(st, raw).value.user.value.followers
      == st.user.value.followers + [Unwrap(Strip(raw), "<id>", "</id>")]
  {
    var line := Strip(raw);
    assert line[1] == "<id>"[1] == 'i';
    assert Classify(line, st.currentUser, st.insideBody, st.insideTopic) == FollowerId;
  }

  /** At a `</user>` line outside a body and a topic, the current user resets to `None` and gains one
      incoming edge per follower; no other in-degree changes. */
  lemma UserCloseLine(st: LineState, raw: string, x: UserKey)
    requires StartsWith(Strip(raw), "</user>") && st.user.Some? && WellFormed(st.graph)
    requires !st.insideBody && !st.insideTopic
    ensures LineStep(st, raw).Ok?
    ensures LineStep(st, raw).value.currentUser == None
    ensures InDegree(LineStep(st, raw).value.graph, x)
      == InDegree(st.graph, x) + if x == st.currentUser then |st.user.value.followers| else 0
  {
    ClassifyUserClose(Strip(raw), st.currentUser);
    LineStepGraph(st, raw);
    FollowerEdgesInDegree(st.graph, st.user.value.followers, st.currentUser, x);
  }

  /** Outside a body and a topic, a `</user>` line takes the `</user>` branch. */
  lemma ClassifyUserClose(line: string, currentUser: UserKey)
    requires StartsWith(line, "</user>")
    ensures Classify(line, currentUser, false, false) == UserClose
  {
    assert line[1] == "</user>"[1] == '/' && line[2] == 'u';
  }
}
