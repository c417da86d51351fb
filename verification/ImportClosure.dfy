/** Breadth-first dependency closure of an import root
    (crates/solver-worker/src/package_import_v2.rs). */
module ImportClosure {
  import opened Wrappers

  /** A packaged document: its blocked flag and the documents it refers to. */
  datatype Node = Node(blocked: bool, edges: seq<nat>)

  datatype GroupPlan = GroupPlan(root: nat, members: seq<nat>, blocked: bool, blockingPath: seq<nat>)

  ghost predicate WellFormed(nodes: seq<Node>) {
    forall i, t {:trigger t in nodes[i].edges} :: 0 <= i < |nodes| && t in nodes[i].edges ==> t < |nodes|
  }

  /** `p` follows edges from `root` to `goal`. */
  ghost predicate IsPath(nodes: seq<Node>, root: nat, goal: nat, p: seq<nat>) {
    && |p| > 0 && p[0] == root && p[|p| - 1] == goal
    && (forall i :: 0 <= i < |p| ==> p[i] < |nodes|)
    && (forall i, j :: 0 <= i && j == i + 1 < |p| ==> p[j] in nodes[p[i]].edges)
  }

  ghost predicate Reachable(nodes: seq<Node>, root: nat, goal: nat) {
    exists p :: IsPath(nodes, root, goal, p)
  }

  // ---------------------------------------------------------------------
  // Search invariant
  // ---------------------------------------------------------------------

  type Levels = map<nat, nat>

  /** Every discovered node but the root has a parent among them. */
  ghost predicate Tree(nodes: seq<Node>, root: nat, parents: map<nat, nat>, level: Levels) {
    && parents.Keys == level.Keys
    && root in parents && level[root] == 0
    && (forall v :: v in parents ==> v < |nodes|)
    && (forall v :: v in parents && v != root ==> Found(nodes, parents, level, v))
  }

  /** `v` was found along an edge, one level below its parent. */
  ghost predicate Found(nodes: seq<Node>, parents: map<nat, nat>, level: Levels, v: nat) {
    && v in parents && v in level && parents[v] in parents && parents[v] in level && parents[v] < |nodes|
    && v in nodes[parents[v]].edges && level[v] == level[parents[v]] + 1
  }

  /** The queue rises by at most one level, and nothing expanded lies beyond it. */
  ghost predicate Wave(level: Levels, expanded: set<nat>, pending: seq<nat>) {
    && (forall u :: u in expanded ==> u in level)
    && (forall i :: 0 <= i < |pending| ==> pending[i] in level)
    && (forall i, j :: 0 <= i < j < |pending| ==> level[pending[i]] <= level[pending[j]])
    && (forall i :: 0 <= i < |pending| ==> level[pending[i]] <= level[pending[0]] + 1)
    && (forall u, i :: u in expanded && 0 <= i < |pending| ==> level[u] <= level[pending[i]])
    && (forall v :: v in level ==> v in expanded || v in pending)
  }

  /** All edges of expanded nodes have been followed, each at most one level down. */
  ghost predicate Followed(nodes: seq<Node>, level: Levels, expanded: set<nat>) {
    forall u, t {:trigger t in nodes[u].edges} :: u in expanded && u < |nodes| && t in nodes[u].edges ==>
      u in level && t in level && level[t] <= level[u] + 1
  }

  ghost predicate FirstBlocked(nodes: seq<Node>, level: Levels, expanded: set<nat>, found: Option<nat>) {
    match found
    case None => forall u :: u in expanded && u < |nodes| ==> !nodes[u].blocked
    case Some(b) =>
      && b in expanded && b in level && b < |nodes| && nodes[b].blocked
      && forall u :: u in expanded && u < |nodes| && u in level && nodes[u].blocked ==> level[b] <= level[u]
  }

  /** While the edges of `source` are being followed the queue holds its level and the next one. */
  ghost predicate Between(level: Levels, source: nat, expanded: set<nat>, pending: seq<nat>) {
    && source in level
    && (forall u :: u in expanded ==> u in level && level[u] <= level[source])
    && (forall i :: 0 <= i < |pending| ==>
          pending[i] in level && level[source] <= level[pending[i]] <= level[source] + 1)
    && (forall i, j :: 0 <= i < j < |pending| ==> level[pending[i]] <= level[pending[j]])
    && (forall v :: v in level ==> v in expanded || v in pending)
  }

  lemma PopFront(level: Levels, expanded: set<nat>, pending: seq<nat>)
    requires Wave(level, expanded, pending) && pending != []
    ensures Between(level, pending[0], expanded + {pending[0]}, pending[1..])
  {
    assert pending == [pending[0]] + pending[1..];
  }

  lemma PopBlocked(nodes: seq<Node>, level: Levels, expanded: set<nat>, pending: seq<nat>, source: nat,
                   found: Option<nat>)
    requires FirstBlocked(nodes, level, expanded, found) && source < |nodes|
    requires Between(level, source, expanded + {source}, pending)
    ensures FirstBlocked(nodes, level, expanded + {source},
              if nodes[source].blocked && found.None? then Some(source) else found)
  {
  }

  ghost predicate Extends(level0: Levels, level: Levels) {
    forall v :: v in level0 ==> v in level && level[v] == level0[v]
  }

  ghost predicate NearUpTo(level: Levels, source: nat, edges: seq<nat>, e: nat) {
    source in level && e <= |edges|
    && forall i :: 0 <= i < e ==> edges[i] in level && level[edges[i]] <= level[source] + 1
  }

  lemma NearOneMore(known: Levels, level: Levels, source: nat, edges: seq<nat>, e: nat)
    requires NearUpTo(known, source, edges, e) && Extends(known, level)
    requires e < |edges| && edges[e] in level && level[edges[e]] <= level[source] + 1
    ensures NearUpTo(level, source, edges, e + 1)
  {
  }

  lemma FollowedOneMore(nodes: seq<Node>, level0: Levels, level: Levels, expanded: set<nat>, source: nat)
    requires Followed(nodes, level0, expanded - {source}) && Extends(level0, level)
    requires source < |nodes| && NearUpTo(level, source, nodes[source].edges, |nodes[source].edges|)
    ensures Followed(nodes, level, expanded)
  {
    forall u, t | u in expanded && u < |nodes| && t in nodes[u].edges
      ensures u in level && t in level && level[t] <= level[u] + 1
    {
      if u == source {
        var i :| 0 <= i < |nodes[source].edges| && nodes[source].edges[i] == t;
      } else {
        assert u in expanded - {source};
      }
    }
  }

  /** A node already discovered lies at most one level below the one being expanded. */
  lemma KnownIsNear(level: Levels, source: nat, expanded: set<nat>, pending: seq<nat>, v: nat)
    requires Between(level, source, expanded, pending) && v in level
    ensures level[v] <= level[source] + 1
  {
    if v !in expanded {
      var i :| 0 <= i < |pending| && pending[i] == v;
    }
  }

  /** Queues `target` unless it has been discovered before. */
  method FollowEdge(nodes: seq<Node>, root: nat, source: nat, target: nat, parents0: map<nat, nat>, pending0: seq<nat>,
                    ghost level0: Levels, ghost expanded: set<nat>)
    returns (parents: map<nat, nat>, pending: seq<nat>, ghost level: Levels)
    requires source in parents0 && source < |nodes| && target < |nodes| && target in nodes[source].edges
    requires Tree(nodes, root, parents0, level0) && Between(level0, source, expanded, pending0)
    ensures Tree(nodes, root, parents, level) && Between(level, source, expanded, pending)
    ensures Extends(level0, level) && target in level && level[target] <= level[source] + 1
    ensures |parents| - |parents0| == |pending| - |pending0| >= 0
  {
    parents, pending, level := parents0, pending0, level0;
    if target !in parents {
      parents := parents[target := source];
      pending := pending + [target];
      level := level[target := level[source] + 1];
    } else {
      KnownIsNear(level, source, expanded, pending, target);
    }
  }

  /** Follows the edges of one node, discovering the targets not seen before. */
  method Expand(nodes: seq<Node>, root: nat, source: nat, parents0: map<nat, nat>, pending0: seq<nat>,
                ghost level0: Levels, ghost expanded: set<nat>)
    returns (parents: map<nat, nat>, pending: seq<nat>, ghost level: Levels)
    requires WellFormed(nodes) && source < |nodes| && source in expanded
    requires Tree(nodes, root, parents0, level0) && Between(level0, source, expanded, pending0)
    requires Followed(nodes, level0, expanded - {source})
    ensures Tree(nodes, root, parents, level) && Between(level, source, expanded, pending)
    ensures Followed(nodes, level, expanded) && Extends(level0, level)
    ensures |parents| - |parents0| == |pending| - |pending0| >= 0
  {
    parents, pending, level := parents0, pending0, level0;
    var edges := nodes[source].edges;
    for e := 0 to |edges|
      invariant Tree(nodes, root, parents, level) && Between(level, source, expanded, pending)
      invariant Extends(level0, level)
      invariant NearUpTo(level, source, edges, e)
      invariant |parents| - |parents0| == |pending| - |pending0| >= 0
    {
      ghost var known := level;
      assert edges[e] in nodes[source].edges;
      parents, pending, level := FollowEdge(nodes, root, source, edges[e], parents, pending, level, expanded);
      NearOneMore(known, level, source, edges, e);
    }
    FollowedOneMore(nodes, level0, level, expanded, source);
  }

  // ---------------------------------------------------------------------
  // Consequences of a finished search
  // ---------------------------------------------------------------------

  /** Levels are lower bounds for path lengths once every edge has been followed. */
  lemma {:induction false} LevelIsShortest(nodes: seq<Node>, root: nat, parents: map<nat, nat>, level: Levels,
                                           goal: nat, p: seq<nat>)
    requires Tree(nodes, root, parents, level) && Followed(nodes, level, level.Keys)
    requires IsPath(nodes, root, goal, p)
    ensures goal in level && level[goal] <= |p| - 1
    decreases |p|
  {
    if |p| == 1 {
    } else {
      LevelIsShortest(nodes, root, parents, level, p[|p| - 2], p[..|p| - 1]);
      assert p[|p| - 1] in nodes[p[|p| - 2]].edges;
    }
  }

  /** Discovered nodes are reached by a path as long as their level. */
  lemma {:induction false} TreePath(nodes: seq<Node>, root: nat, parents: map<nat, nat>, level: Levels, goal: nat)
    returns (p: seq<nat>)
    requires Tree(nodes, root, parents, level) && goal in parents
    ensures IsPath(nodes, root, goal, p) && |p| == level[goal] + 1
    decreases level[goal]
  {
    if goal == root {
      p := [root];
    } else {
      assert Found(nodes, parents, level, goal);
      p := TreePath(nodes, root, parents, level, parents[goal]);
      p := p + [goal];
    }
  }

  lemma MembersAreReachable(nodes: seq<Node>, root: nat, parents: map<nat, nat>, level: Levels)
    requires Tree(nodes, root, parents, level) && Followed(nodes, level, level.Keys)
    ensures forall v :: v in parents <==> Reachable(nodes, root, v)
  {
    forall v: nat ensures v in parents <==> Reachable(nodes, root, v) {
      if v in parents {
        var p := TreePath(nodes, root, parents, level, v);
      }
      if Reachable(nodes, root, v) {
        var p :| IsPath(nodes, root, v, p);
        LevelIsShortest(nodes, root, parents, level, v, p);
      }
    }
  }

  /** Walks the parent links back to the root. */
  method BlockingPath(nodes: seq<Node>, root: nat, parents: map<nat, nat>, blocked: nat, ghost level: Levels)
    returns (path: seq<nat>)
    requires Tree(nodes, root, parents, level) && blocked in parents
    requires forall u :: u in parents && level[u] < level[blocked] ==> !nodes[u].blocked
    ensures IsPath(nodes, root, blocked, path) && |path| == level[blocked] + 1
    ensures forall i :: 0 <= i < |path| - 1 ==> !nodes[path[i]].blocked
  {
    var node := blocked;
    path := [node];
    while node != root
      invariant node in parents && level[node] <= level[blocked]
      invariant IsPath(nodes, node, blocked, path) && |path| == level[blocked] - level[node] + 1
      invariant forall i :: 0 <= i < |path| - 1 ==> !nodes[path[i]].blocked
      decreases level[node]
    {
      assert Found(nodes, parents, level, node);
      node := parents[node];
      path := [node] + path;
    }
  }

  method AscendingKeys(keys: set<nat>, bound: nat) returns (members: seq<nat>)
    requires forall k :: k in keys ==> k < bound
    ensures forall v :: v in members <==> v in keys
    ensures forall i, j :: 0 <= i < j < |members| ==> members[i] < members[j]
  {
    members := [];
    for k := 0 to bound
      invariant forall v :: v in members <==> v in keys && v < k
      invariant forall i, j :: 0 <= i < j < |members| ==> members[i] < members[j]
    {
      if k in keys {
        assert forall i :: 0 <= i < |members| ==> members[i] in members;
        members := members + [k];
      }
    }
  }

  ghost predicate PathIsShortestToBlocked(nodes: seq<Node>, root: nat, path: seq<nat>) {
    && path != [] && IsPath(nodes, root, path[|path| - 1], path)
    && nodes[path[|path| - 1]].blocked
    && (forall i :: 0 <= i < |path| - 1 ==> !nodes[path[i]].blocked)
    && (forall v: nat, q: seq<nat> :: IsPath(nodes, root, v, q) && nodes[v].blocked ==> |path| <= |q|)
  }

  /** The meaning of a plan. */
  ghost predicate IsPlan(nodes: seq<Node>, root: nat, plan: GroupPlan) {
    && plan.root == root
    && (forall v :: v in plan.members <==> Reachable(nodes, root, v))
    && (forall i, j :: 0 <= i < j < |plan.members| ==> plan.members[i] < plan.members[j])
    && (plan.blocked <==> exists v :: v in plan.members && v < |nodes| && nodes[v].blocked)
    && (if plan.blocked then PathIsShortestToBlocked(nodes, root, plan.blockingPath) else plan.blockingPath == [])
  }

  ghost predicate Searching(nodes: seq<Node>, root: nat, parents: map<nat, nat>, pending: seq<nat>, found: Option<nat>,
                            level: Levels, expanded: set<nat>)
  {
    && Tree(nodes, root, parents, level) && Wave(level, expanded, pending)
    && Followed(nodes, level, expanded) && FirstBlocked(nodes, level, expanded, found)
  }

  /** One turn of the loop: take the front of the queue and follow its edges. */
  method VisitFront(nodes: seq<Node>, root: nat, parents0: map<nat, nat>, pending0: seq<nat>, found0: Option<nat>,
                    ghost level0: Levels, ghost expanded0: set<nat>)
    returns (parents: map<nat, nat>, pending: seq<nat>, found: Option<nat>,
             ghost level: Levels, ghost expanded: set<nat>)
    requires WellFormed(nodes) && pending0 != []
    requires Searching(nodes, root, parents0, pending0, found0, level0, expanded0)
    ensures Searching(nodes, root, parents, pending, found, level, expanded)
    ensures |parents| - |parents0| == |pending| - |pending0| + 1 >= 0
  {
    var source := pending0[0];
    PopFront(level0, expanded0, pending0);
    assert source in parents0;
    found := if nodes[source].blocked && found0.None? then Some(source) else found0;
    expanded := expanded0 + {source};
    PopBlocked(nodes, level0, expanded0, pending0[1..], source, found0);
    assert Followed(nodes, level0, expanded - {source});
    parents, pending, level := Expand(nodes, root, source, parents0, pending0[1..], level0, expanded);
  }

  lemma SearchStarts(nodes: seq<Node>, root: nat)
    requires root < |nodes|
    ensures Searching(nodes, root, map[root := root], [root], None, map[root := 0], {})
  {
  }

  lemma SearchEnds(nodes: seq<Node>, root: nat, parents: map<nat, nat>, found: Option<nat>, level: Levels,
                   expanded: set<nat>)
    requires Searching(nodes, root, parents, [], found, level, expanded)
    ensures Tree(nodes, root, parents, level) && Followed(nodes, level, level.Keys)
    ensures FirstBlocked(nodes, level, level.Keys, found)
  {
    assert level.Keys == expanded;
  }

  /** The breadth-first loop of `closure`. */
  method Search(nodes: seq<Node>, root: nat) returns (parents: map<nat, nat>, found: Option<nat>, ghost level: Levels)
    requires WellFormed(nodes) && root < |nodes|
    ensures Tree(nodes, root, parents, level) && Followed(nodes, level, level.Keys)
    ensures FirstBlocked(nodes, level, level.Keys, found)
    ensures forall v :: v in parents <==> Reachable(nodes, root, v)
  {
    var pending := [root];
    parents := map[root := root];
    found := None;
    level := map[root := 0];
    ghost var expanded: set<nat> := {};
    SearchStarts(nodes, root);
    while pending != []
      invariant Searching(nodes, root, parents, pending, found, level, expanded)
      decreases 2 * (|nodes| - |parents|) + |pending|
    {
      AtMostAll(nodes, root, parents, level);
      parents, pending, found, level, expanded := VisitFront(nodes, root, parents, pending, found, level, expanded);
      AtMostAll(nodes, root, parents, level);
    }
    SearchEnds(nodes, root, parents, found, level, expanded);
    MembersAreReachable(nodes, root, parents, level);
  }

  ghost function Below(bound: nat): set<nat> {
    if bound == 0 then {} else Below(bound - 1) + {bound - 1}
  }

  lemma {:induction false} BelowHasAll(bound: nat)
    ensures |Below(bound)| == bound && forall v: nat :: v in Below(bound) <==> v < bound
  {
    if bound == 0 {
    } else {
      BelowHasAll(bound - 1);
    }
  }

  lemma AtMostAll(nodes: seq<Node>, root: nat, parents: map<nat, nat>, level: Levels)
    requires Tree(nodes, root, parents, level)
    ensures |parents| <= |nodes|
  {
    BelowHasAll(|nodes|);
    assert parents.Keys <= Below(|nodes|);
    assert Below(|nodes|) == parents.Keys + (Below(|nodes|) - parents.Keys);
  }

  /** `closure`: the members are exactly the reachable documents, the plan is blocked exactly when
      one of them is, and the blocking path is a shortest one to a blocked document. */
  method Closure(nodes: seq<Node>, root: nat) returns (plan: GroupPlan)
    requires WellFormed(nodes) && root < |nodes|
    ensures IsPlan(nodes, root, plan)
  {
    ghost var level;
    var parents, found;
    parents, found, level := Search(nodes, root);
    var members := AscendingKeys(parents.Keys, |nodes|);
    var path := [];
    if found.Some? {
      path := BlockingPath(nodes, root, parents, found.value, level);
      forall v: nat, q: seq<nat> | IsPath(nodes, root, v, q) && nodes[v].blocked ensures |path| <= |q| {
        LevelIsShortest(nodes, root, parents, level, v, q);
      }
      assert found.value in members;
    }
    plan := GroupPlan(root, members, found.Some?, path);
  }
}
