/** Depth-first traversal over simple upstream paths
    (crates/solver-worker/src/contribution_path.rs). Labels, scores and branch ranking are not
    represented. */
module ContributionPath {
  import opened ContributionGraph
  import opened ContributionCuts

  datatype Reason = MaxDepth | Leaf | Cutoff | CycleCut | MaxNodes | TopK

  datatype Branch = Branch(path: seq<nat>, reason: Reason)

  datatype Link = Link(source: nat, target: nat, depth: nat, cycleCut: bool)

  datatype Progress = Progress(
    expanded: set<nat>,
    minDepth: map<nat, nat>,
    truncated: nat,
    branches: seq<Branch>,
    links: seq<Link>)

  // ---------------------------------------------------------------------
  // What a traversal keeps
  // ---------------------------------------------------------------------

  /** A recorded path follows kept children from the root and repeats a node only at a cycle cut. */
  ghost predicate BranchOk(m: Snapshot, root: nat, b: Branch) {
    && IsWalk(m, root, b.path)
    && (if b.reason == CycleCut
        then Distinct(b.path[..|b.path| - 1]) && b.path[|b.path| - 1] in b.path[..|b.path| - 1]
        else Distinct(b.path))
    && ReasonFits(m, b.path[|b.path| - 1], |b.path| - 1, b.reason)
  }

  /** What each terminal reason says about the node at the end of the path. */
  ghost predicate ReasonFits(m: Snapshot, last: nat, depth: nat, reason: Reason)
    requires last < |m.adjacency|
  {
    match reason
    case MaxDepth => depth == m.options.maxDepth
    case Leaf => depth < m.options.maxDepth && m.adjacency[last] == []
    case Cutoff => depth < m.options.maxDepth && m.adjacency[last] != [] && NoneCounts(m, last)
    case TopK => depth < m.options.maxDepth && m.options.topK == 0 && !NoneCounts(m, last)
    case CycleCut => depth <= m.options.maxDepth
    case MaxNodes => depth <= m.options.maxDepth
  }

  /** A branch ends for the node cap only when the cap is full and its last node is left out. */
  ghost predicate CapFull(m: Snapshot, s: Progress, b: Branch) {
    b.reason == MaxNodes ==>
      |s.expanded| >= m.options.maxNodes && b.path != [] && b.path[|b.path| - 1] !in s.expanded
  }

  /** Every process on the path is in the snapshot index. */
  predicate Known(m: Snapshot, path: seq<nat>) {
    forall i :: 0 <= i < |path| ==> path[i] in m.known
  }

  /** `l` leads from the end of the simple path `p` to a kept child, and says whether that closes a cycle. */
  ghost predicate LeadsFrom(m: Snapshot, root: nat, p: seq<nat>, l: Link) {
    && IsWalk(m, root, p) && Distinct(p) && |p| == l.depth <= m.options.maxDepth
    && l.source == p[|p| - 1] && l.target in Kept(m, l.source) && (l.cycleCut <==> l.target in p)
  }

  ghost predicate LinkOk(m: Snapshot, root: nat, l: Link) {
    exists p :: LeadsFrom(m, root, p, l)
  }

  function Cap(m: Snapshot): nat {
    if m.options.maxNodes < 1 then 1 else m.options.maxNodes
  }

  ghost predicate DepthsOk(m: Snapshot, root: nat, s: Progress) {
    && s.minDepth.Keys == s.expanded && root in s.expanded && s.minDepth[root] == 0
    && |s.expanded| <= Cap(m)
    && (forall v :: v in s.expanded ==> s.minDepth[v] <= m.options.maxDepth && Reaches(m, root, v, s.minDepth[v]))
  }

  ghost predicate Sound(m: Snapshot, root: nat, s: Progress) {
    && DepthsOk(m, root, s)
    && (forall b :: b in s.branches ==> BranchOk(m, root, b) && CapFull(m, s, b) && Known(m, b.path))
    && (forall l :: l in s.links ==> LinkOk(m, root, l))
  }

  ghost predicate Grows(a: Progress, b: Progress) {
    && (forall v :: v in a.minDepth ==> v in b.minDepth && b.minDepth[v] <= a.minDepth[v])
    && (forall x :: x in a.branches ==> x in b.branches)
    && (forall l :: l in a.links ==> l in b.links)
  }

  /** The node cap was never hit. */
  ghost predicate Uncapped(s: Progress) {
    forall b :: b in s.branches ==> b.reason != MaxNodes
  }

  /** Some recorded branch begins with `path`. */
  ghost predicate Recorded(s: Progress, path: seq<nat>) {
    exists b :: b in s.branches && path <= b.path
  }

  /** Every node expanded since `a` lies on a recorded branch. */
  ghost predicate NewOnesShown(a: Progress, b: Progress) {
    forall v :: v in b.expanded && v !in a.expanded ==> exists x :: x in b.branches && v in x.path
  }

  /** The branches recorded since `a` begin with `path`, and none is recorded twice. */
  ghost predicate Once(a: Progress, b: Progress, path: seq<nat>) {
    && a.branches <= b.branches
    && (forall i :: |a.branches| <= i < |b.branches| ==> path <= b.branches[i].path)
    && (forall i, j :: |a.branches| <= i < j < |b.branches| ==> b.branches[i] != b.branches[j])
  }

  /** What a successful step from `a` to `b` on `path` has recorded. */
  ghost predicate Documented(a: Progress, b: Progress, path: seq<nat>) {
    Recorded(b, path) && NewOnesShown(a, b) && Once(a, b, path)
  }

  /** The nodes within the depth limit of the root in the pruned graph. */
  ghost function Ball(m: Snapshot, root: nat): set<nat> {
    set v: nat | v < |m.adjacency| && Within(m, root, v)
  }

  ghost predicate Within(m: Snapshot, root: nat, v: nat) {
    exists d: nat :: d <= m.options.maxDepth && Reaches(m, root, v, d)
  }

  /** All of them are in the snapshot index; nothing then makes a walk fail. */
  ghost predicate BallKnown(m: Snapshot, root: nat) {
    forall v :: v in Ball(m, root) ==> v in m.known
  }

  /** `path` is the simple path the walk stands on. */
  ghost predicate OnPath(m: Snapshot, root: nat, path: seq<nat>, current: nat, depth: nat) {
    IsWalk(m, root, path) && Distinct(path) && path[|path| - 1] == current && |path| == depth + 1
    && depth <= m.options.maxDepth
  }

  /** `q` continues `path` as a simple path within the depth limit. */
  ghost predicate Continues(m: Snapshot, root: nat, path: seq<nat>, q: seq<nat>) {
    IsWalk(m, root, path + q) && Distinct(path + q) && |path| + |q| <= m.options.maxDepth + 1
  }

  /** The node that ends such a continuation was expanded, at no greater depth. */
  ghost predicate Covered(s: Progress, path: seq<nat>, q: seq<nat>) {
    q != [] ==> q[|q| - 1] in s.minDepth && s.minDepth[q[|q| - 1]] <= |path| + |q| - 1
  }

  ghost predicate Explored(m: Snapshot, root: nat, s: Progress, path: seq<nat>) {
    forall q :: Continues(m, root, path, q) ==> Covered(s, path, q)
  }

  /** Every branch that begins with `path` and could end other than for the node cap is recorded. */
  ghost predicate Complete(m: Snapshot, root: nat, s: Progress, path: seq<nat>) {
    forall b :: BranchOk(m, root, b) && b.reason != MaxNodes && path <= b.path ==> b in s.branches
  }

  /** Every link from `path` or a simple path below it is recorded. */
  ghost predicate Linked(m: Snapshot, root: nat, s: Progress, path: seq<nat>) {
    forall p, l :: LeadsFrom(m, root, p, l) && path <= p ==> l in s.links
  }

  /** Nothing is left to find below `path`. */
  ghost predicate Finished(m: Snapshot, root: nat, s: Progress, path: seq<nat>) {
    Explored(m, root, s, path) && Complete(m, root, s, path) && Linked(m, root, s, path)
  }

  /** One child has been dealt with: its link is recorded, and either it lies on the path and the
      cycle is cut there, or nothing is left to find below it. */
  ghost predicate ChildDone(m: Snapshot, root: nat, s: Progress, path: seq<nat>, c: nat) {
    && path != [] && Link(path[|path| - 1], c, |path|, c in path) in s.links
    && if c in path then Branch(path + [c], CycleCut) in s.branches
       else c in s.minDepth && s.minDepth[c] <= |path| && Finished(m, root, s, path + [c])
  }

  /** The branch that ends with `path` itself, if there is one, is recorded. */
  ghost predicate EndRecorded(m: Snapshot, root: nat, s: Progress, path: seq<nat>) {
    forall reason :: BranchOk(m, root, Branch(path, reason)) && reason != MaxNodes ==>
      Branch(path, reason) in s.branches
  }

  // ---------------------------------------------------------------------
  // Lemmas on values
  // ---------------------------------------------------------------------

  lemma GrowsTransitively(a: Progress, b: Progress, c: Progress)
    requires Grows(a, b) && Grows(b, c)
    ensures Grows(a, c)
  {
  }

  lemma ShownTransitively(a: Progress, b: Progress, c: Progress)
    requires NewOnesShown(a, b) && NewOnesShown(b, c) && Grows(b, c)
    ensures NewOnesShown(a, c)
  {
    forall v | v in c.expanded && v !in a.expanded ensures exists x :: x in c.branches && v in x.path {
      if v in b.expanded {
        var x :| x in b.branches && v in x.path;
        assert x in c.branches;
      }
    }
  }

  lemma Longer(s: Progress, path: seq<nat>, c: nat)
    requires Recorded(s, path + [c])
    ensures Recorded(s, path)
  {
    var x :| x in s.branches && path + [c] <= x.path;
    assert path <= x.path;
  }

  /** Entering `c` is documented by what its walk records. */
  lemma EnterDocuments(a: Progress, entered: Progress, b: Progress, path: seq<nat>, c: nat)
    requires entered.expanded == a.expanded + {c} && Grows(a, entered) && Grows(entered, b)
    requires entered.branches == a.branches && Documented(entered, b, path + [c])
    ensures Documented(a, b, path + [c]) && Grows(a, b)
  {
    var x :| x in b.branches && path + [c] <= x.path;
    assert (path + [c])[|path|] == c && x.path[|path|] == c;
    assert c in x.path;
  }

  lemma ExploredGrows(m: Snapshot, root: nat, a: Progress, b: Progress, path: seq<nat>)
    requires Explored(m, root, a, path) && Grows(a, b)
    ensures Explored(m, root, b, path)
  {
    forall q | Continues(m, root, path, q) ensures Covered(b, path, q) {
      assert Covered(a, path, q);
    }
  }

  lemma FinishedGrows(m: Snapshot, root: nat, a: Progress, b: Progress, path: seq<nat>)
    requires Finished(m, root, a, path) && Grows(a, b)
    ensures Finished(m, root, b, path)
  {
    ExploredGrows(m, root, a, b, path);
    forall x | BranchOk(m, root, x) && x.reason != MaxNodes && path <= x.path ensures x in b.branches {
      assert x in a.branches;
    }
    forall p, l | LeadsFrom(m, root, p, l) && path <= p ensures l in b.links {
      assert l in a.links;
    }
  }

  lemma ChildDoneGrows(m: Snapshot, root: nat, a: Progress, b: Progress, path: seq<nat>, c: nat)
    requires ChildDone(m, root, a, path, c) && Grows(a, b)
    ensures ChildDone(m, root, b, path, c)
  {
    if c !in path {
      FinishedGrows(m, root, a, b, path + [c]);
    }
  }

  ghost predicate AllDone(m: Snapshot, root: nat, s: Progress, path: seq<nat>, kept: seq<nat>, k: nat) {
    forall j :: 0 <= j < k && j < |kept| ==> ChildDone(m, root, s, path, kept[j])
  }

  lemma OneMoreDone(m: Snapshot, root: nat, a: Progress, b: Progress, path: seq<nat>, kept: seq<nat>, k: nat)
    requires AllDone(m, root, a, path, kept, k) && Grows(a, b)
    requires k < |kept| && ChildDone(m, root, b, path, kept[k])
    ensures AllDone(m, root, b, path, kept, k + 1)
  {
    forall j | 0 <= j < k ensures ChildDone(m, root, b, path, kept[j]) {
      ChildDoneGrows(m, root, a, b, path, kept[j]);
    }
  }

  /** A path explores everything below it once all its kept children are done. */
  lemma ChildrenExplore(m: Snapshot, root: nat, s: Progress, path: seq<nat>, current: nat, depth: nat)
    requires OnPath(m, root, path, current, depth)
    requires depth < m.options.maxDepth ==> forall c :: c in Kept(m, current) ==> ChildDone(m, root, s, path, c)
    ensures Explored(m, root, s, path)
  {
    forall q | Continues(m, root, path, q) && q != [] ensures Covered(s, path, q) {
      var c, rest := q[0], q[1..];
      var whole := path + q;
      assert whole[|path| - 1] == current && whole[|path|] == c;
      assert c in Kept(m, current);
      NotRepeated(whole, |path|);
      assert whole[..|path|] == path;
      assert path + [c] + rest == whole;
      assert Continues(m, root, path + [c], rest);
      assert Covered(s, path + [c], rest);
      assert rest != [] ==> rest[|rest| - 1] == q[|q| - 1];
    }
  }

  /** A branch through a child on the path can only be the cut of that cycle. */
  lemma ThroughCycle(m: Snapshot, root: nat, path: seq<nat>, b: Branch)
    requires BranchOk(m, root, b) && path != [] && path <= b.path && |path| < |b.path|
    requires b.path[|path|] in path
    ensures b == Branch(path + [b.path[|path|]], CycleCut)
  {
    var distinct := if b.reason == CycleCut then b.path[..|b.path| - 1] else b.path;
    if |path| < |distinct| {
      assert distinct[..|path|] == path && distinct[|path|] == b.path[|path|];
      NotRepeated(distinct, |path|);
    }
    assert b.path == path + [b.path[|path|]];
  }

  /** A path has all its branches once its own end and all its kept children are done. */
  lemma ChildrenComplete(m: Snapshot, root: nat, s: Progress, path: seq<nat>, current: nat, depth: nat)
    requires OnPath(m, root, path, current, depth) && EndRecorded(m, root, s, path)
    requires depth < m.options.maxDepth ==> forall c :: c in Kept(m, current) ==> ChildDone(m, root, s, path, c)
    ensures Complete(m, root, s, path)
  {
    forall b | BranchOk(m, root, b) && b.reason != MaxNodes && path <= b.path ensures b in s.branches {
      if |b.path| == |path| {
        assert b == Branch(path, b.reason);
      } else {
        var c := b.path[|path|];
        assert b.path[|path| - 1] == current && c in Kept(m, current);
        assert ChildDone(m, root, s, path, c);
        if c in path {
          ThroughCycle(m, root, path, b);
        } else {
          assert path + [c] <= b.path;
        }
      }
    }
  }

  /** A path has all its links once all its kept children are done. */
  lemma ChildrenLinked(m: Snapshot, root: nat, s: Progress, path: seq<nat>, current: nat, depth: nat)
    requires OnPath(m, root, path, current, depth)
    requires depth < m.options.maxDepth ==> forall c :: c in Kept(m, current) ==> ChildDone(m, root, s, path, c)
    ensures Linked(m, root, s, path)
  {
    forall p, l | LeadsFrom(m, root, p, l) && path <= p ensures l in s.links {
      if |p| == |path| {
        assert p == path && l == Link(current, l.target, |path|, l.target in path);
        assert ChildDone(m, root, s, path, l.target);
      } else {
        var c := p[|path|];
        assert p[|path| - 1] == current && c in Kept(m, current);
        NotRepeated(p, |path|);
        assert p[..|path|] == path && path + [c] <= p;
        assert ChildDone(m, root, s, path, c);
      }
    }
  }

  lemma AllDoneFinishes(m: Snapshot, root: nat, s: Progress, path: seq<nat>, current: nat, depth: nat)
    requires OnPath(m, root, path, current, depth) && EndRecorded(m, root, s, path)
    requires AllDone(m, root, s, path, Kept(m, current), |Kept(m, current)|)
    ensures Finished(m, root, s, path)
  {
    forall c | c in Kept(m, current) ensures ChildDone(m, root, s, path, c) {
      var j :| 0 <= j < |Kept(m, current)| && Kept(m, current)[j] == c;
    }
    ChildrenExplore(m, root, s, path, current, depth);
    ChildrenComplete(m, root, s, path, current, depth);
    ChildrenLinked(m, root, s, path, current, depth);
  }

  /** A path at which nothing can be followed ends for one reason only. */
  lemma EndFinishes(m: Snapshot, root: nat, s: Progress, path: seq<nat>, current: nat, depth: nat, reason: Reason)
    requires OnPath(m, root, path, current, depth) && Branch(path, reason) in s.branches
    requires reason in {MaxDepth, Leaf, Cutoff} && BranchOk(m, root, Branch(path, reason))
    ensures Finished(m, root, s, path)
  {
    EndIsUnique(m, root, path, reason);
    RankedCounts(m, current);
    ChildrenExplore(m, root, s, path, current, depth);
    ChildrenComplete(m, root, s, path, current, depth);
    ChildrenLinked(m, root, s, path, current, depth);
  }

  lemma EndIsUnique(m: Snapshot, root: nat, path: seq<nat>, reason: Reason)
    requires Distinct(path) && reason in {MaxDepth, Leaf, Cutoff, TopK} && BranchOk(m, root, Branch(path, reason))
    ensures forall r :: BranchOk(m, root, Branch(path, r)) && r != MaxNodes ==> r == reason
  {
    RankedCounts(m, path[|path| - 1]);
    NotRepeated(path, |path| - 1);
  }

  /** A path with children to follow has no end of its own. */
  lemma NoEnd(m: Snapshot, root: nat, s: Progress, path: seq<nat>, current: nat, depth: nat)
    requires OnPath(m, root, path, current, depth) && depth < m.options.maxDepth && Kept(m, current) != []
    ensures EndRecorded(m, root, s, path)
  {
    RankedCounts(m, current);
    NotRepeated(path, |path| - 1);
  }

  lemma EnteredIsDone(m: Snapshot, root: nat, entered: Progress, s: Progress, path: seq<nat>, c: nat)
    requires Grows(entered, s) && Finished(m, root, s, path + [c]) && c !in path
    requires c in entered.minDepth && entered.minDepth[c] <= |path|
    requires path != [] && Link(path[|path| - 1], c, |path|, false) in entered.links
    ensures ChildDone(m, root, s, path, c)
  {
  }

  /** Whatever lies on a walk within the depth limit lies in the ball. */
  lemma WalkInBall(m: Snapshot, root: nat, path: seq<nat>, i: nat)
    requires IsWalk(m, root, path) && |path| <= m.options.maxDepth + 1 && i < |path|
    ensures path[i] in Ball(m, root)
  {
    var p := path[..i + 1];
    assert IsWalk(m, root, p) && p[|p| - 1] == path[i];
    assert Reaches(m, root, path[i], i);
  }

  lemma WalkIsKnown(m: Snapshot, root: nat, path: seq<nat>)
    requires BallKnown(m, root) && IsWalk(m, root, path) && |path| <= m.options.maxDepth + 1
    ensures Known(m, path)
  {
    forall i | 0 <= i < |path| ensures path[i] in m.known {
      WalkInBall(m, root, path, i);
    }
  }

  /** Stepping to a kept child continues the walk. */
  lemma StepDown(m: Snapshot, root: nat, path: seq<nat>, current: nat, depth: nat, c: nat)
    requires OnPath(m, root, path, current, depth) && depth < m.options.maxDepth
    requires c in Kept(m, current)
    ensures c < |m.adjacency| && IsWalk(m, root, path + [c])
    ensures c !in path ==> OnPath(m, root, path + [c], c, depth + 1)
    ensures Reaches(m, root, c, depth + 1)
  {
    KeptInBounds(m, current);
    var next := path + [c];
    forall i, j | 0 <= i && j == i + 1 < |next| ensures next[j] in Kept(m, next[i]) {
      if j < |path| {
        assert next[j] == path[j] && next[i] == path[i];
      }
    }
    assert next[|next| - 1] == c;
  }

  function WithBranch(s: Progress, b: Branch): Progress {
    s.(branches := s.branches + [b])
  }

  lemma BranchKeeps(m: Snapshot, root: nat, s: Progress, t: Progress, b: Branch)
    requires Sound(m, root, s) && BranchOk(m, root, b) && CapFull(m, s, b) && Known(m, b.path)
    requires t == WithBranch(s, b).(truncated := t.truncated)
    ensures Sound(m, root, t) && Grows(s, t) && Documented(s, t, b.path)
  {
    assert b in t.branches;
  }

  lemma LinkKeeps(m: Snapshot, root: nat, s: Progress, l: Link)
    requires Sound(m, root, s) && LinkOk(m, root, l)
    ensures Sound(m, root, s.(links := s.links + [l])) && Grows(s, s.(links := s.links + [l]))
  {
  }

  /** Counting alone changes nothing that was found. */
  lemma CountKeeps(m: Snapshot, root: nat, s: Progress, count: nat)
    requires Sound(m, root, s)
    ensures Sound(m, root, s.(truncated := count))
    ensures Grows(s, s.(truncated := count)) && NewOnesShown(s, s.(truncated := count))
  {
  }

  function Entered(s: Progress, c: nat, depth: nat): Progress {
    s.(expanded := s.expanded + {c},
       minDepth := s.minDepth[c := if c in s.minDepth && s.minDepth[c] < depth then s.minDepth[c] else depth])
  }

  lemma EnterDepths(m: Snapshot, root: nat, s: Progress, c: nat, depth: nat)
    requires DepthsOk(m, root, s) && Reaches(m, root, c, depth) && 0 < depth <= m.options.maxDepth
    requires c in s.expanded || |s.expanded| < m.options.maxNodes
    ensures DepthsOk(m, root, Entered(s, c, depth))
  {
    var t := Entered(s, c, depth);
    forall v | v in t.expanded ensures t.minDepth[v] <= m.options.maxDepth && Reaches(m, root, v, t.minDepth[v]) {
      if v != c {
        assert v in s.expanded;
      }
    }
    if c in s.expanded {
      assert s.expanded + {c} == s.expanded;
    }
  }

  /** Whoever ended at the cap did so with the cap full, and only a known node can be entered then. */
  lemma EnterKeepsCap(m: Snapshot, s: Progress, c: nat, depth: nat, b: Branch)
    requires CapFull(m, s, b) && (c in s.expanded || |s.expanded| < m.options.maxNodes)
    ensures CapFull(m, Entered(s, c, depth), b)
  {
    if b.reason == MaxNodes {
      assert s.expanded + {c} == s.expanded;
    }
  }

  lemma EnterKeeps(m: Snapshot, root: nat, s: Progress, c: nat, depth: nat)
    requires Sound(m, root, s) && Reaches(m, root, c, depth) && 0 < depth <= m.options.maxDepth
    requires c in s.expanded || |s.expanded| < m.options.maxNodes
    ensures Sound(m, root, Entered(s, c, depth)) && Grows(s, Entered(s, c, depth))
  {
    EnterDepths(m, root, s, c, depth);
    var t := Entered(s, c, depth);
    forall b | b in t.branches ensures BranchOk(m, root, b) && CapFull(m, t, b) && Known(m, b.path) {
      assert b in s.branches;
      EnterKeepsCap(m, s, c, depth, b);
    }
    forall l | l in t.links ensures LinkOk(m, root, l) {
      assert l in s.links;
    }
  }

  // ---------------------------------------------------------------------
  // The traversal object
  // ---------------------------------------------------------------------

  class TraversalState {
    const m: Snapshot
    const root: nat
    var expanded: set<nat>
    var minDepth: map<nat, nat>
    var truncated: nat
    var branches: seq<Branch>
    var links: seq<Link>

    ghost function View(): Progress
      reads this
    {
      Progress(expanded, minDepth, truncated, branches, links)
    }

    constructor (m: Snapshot, root: nat)
      ensures this.m == m && this.root == root
      ensures View() == Progress({root}, map[root := 0], 0, [], [])
    {
      this.m := m;
      this.root := root;
      expanded := {root};
      minDepth := map[root := 0];
      truncated := 0;
      branches, links := [], [];
    }

    /** A branch is recorded unless one of its processes is missing from the snapshot index. */
    method RecordBranch(path: seq<nat>, reason: Reason, cut: nat) returns (ok: bool)
      requires Sound(m, root, View()) && BranchOk(m, root, Branch(path, reason))
      requires CapFull(m, View(), Branch(path, reason))
      modifies this`branches, this`truncated
      ensures ok <==> Known(m, path)
      ensures BallKnown(m, root) ==> ok
      ensures View() == (if ok then WithBranch(old(View()), Branch(path, reason)) else old(View())).(
        truncated := old(truncated) + cut)
      ensures Sound(m, root, View()) && Grows(old(View()), View())
      ensures ok ==> Documented(old(View()), View(), path) && Branch(path, reason) in branches
    {
      if BallKnown(m, root) {
        WalkIsKnown(m, root, path);
      }
      truncated := truncated + cut;
      ok := Known(m, path);
      if ok {
        branches := branches + [Branch(path, reason)];
        BranchKeeps(m, root, old(View()), View(), Branch(path, reason));
        assert Branch(path, reason) in branches;
      } else {
        CountKeeps(m, root, old(View()), truncated);
      }
    }

    method RecordLink(source: nat, target: nat, depth: nat, cycleCut: bool) returns (ok: bool)
      requires Sound(m, root, View()) && LinkOk(m, root, Link(source, target, depth, cycleCut))
      modifies this`links
      ensures ok <==> source in m.known
      ensures View() == old(View()).(
        links := if ok then old(links) + [Link(source, target, depth, cycleCut)] else old(links))
      ensures Sound(m, root, View()) && Grows(old(View()), View())
    {
      ok := source in m.known;
      if ok {
        LinkKeeps(m, root, View(), Link(source, target, depth, cycleCut));
        links := links + [Link(source, target, depth, cycleCut)];
      }
    }

    /** One kept child of the loop in `walk`. */
    method Visit(c: nat, current: nat, depth: nat, path: seq<nat>) returns (ok: bool)
      requires Sound(m, root, View())
      requires OnPath(m, root, path, current, depth) && depth < m.options.maxDepth && c in Kept(m, current)
      modifies this
      ensures Sound(m, root, View()) && Grows(old(View()), View())
      ensures ok ==> Documented(old(View()), View(), path + [c])
      ensures BallKnown(m, root) ==> ok
      ensures ok && Uncapped(View()) ==> ChildDone(m, root, View(), path, c)
      ensures ok && Uncapped(View()) ==> c < |m.adjacency| && truncated == old(truncated) + CutsAt(m, path, c)
      ensures ok && c !in path && c !in old(expanded) && |old(expanded)| >= m.options.maxNodes ==>
        truncated == old(truncated) + 1 && branches == old(branches) + [Branch(path + [c], MaxNodes)]
      decreases m.options.maxDepth - depth, 1
    {
      StepDown(m, root, path, current, depth, c);
      assert c in Ball(m, root);
      if c !in m.known {
        return false;
      }
      if c in path {
        ok := CutCycle(c, current, depth, path);
      } else if c !in expanded && |expanded| >= m.options.maxNodes {
        ok := RecordBranch(path + [c], MaxNodes, 1);
      } else {
        ok := Enter(c, current, depth, path);
      }
    }

    /** A provider that already lies on the path ends the branch. */
    method CutCycle(c: nat, current: nat, depth: nat, path: seq<nat>) returns (ok: bool)
      requires Sound(m, root, View())
      requires OnPath(m, root, path, current, depth) && depth < m.options.maxDepth && c in Kept(m, current)
      requires c in path && IsWalk(m, root, path + [c])
      modifies this
      ensures Sound(m, root, View()) && Grows(old(View()), View())
      ensures ok ==> Documented(old(View()), View(), path + [c])
      ensures BallKnown(m, root) ==> ok
      ensures ok ==> Link(current, c, depth + 1, true) in links && Branch(path + [c], CycleCut) in branches
      ensures ok ==> truncated == old(truncated) + 1
    {
      assert (path + [c])[..|path|] == path;
      WalkInBall(m, root, path, depth);
      assert LeadsFrom(m, root, path, Link(current, c, depth + 1, true));
      ok := RecordLink(current, c, depth + 1, true);
      if ok {
        ok := RecordBranch(path + [c], CycleCut, 1);
      }
    }

    /** A provider within the node cap is expanded and walked. */
    method Enter(c: nat, current: nat, depth: nat, path: seq<nat>) returns (ok: bool)
      requires Sound(m, root, View())
      requires OnPath(m, root, path, current, depth) && depth < m.options.maxDepth && c in Kept(m, current)
      requires c !in path && OnPath(m, root, path + [c], c, depth + 1) && Reaches(m, root, c, depth + 1)
      requires c in expanded || |expanded| < m.options.maxNodes
      modifies this
      ensures Sound(m, root, View()) && Grows(old(View()), View())
      ensures ok ==> Documented(old(View()), View(), path + [c])
      ensures BallKnown(m, root) ==> ok
      ensures ok && Uncapped(View()) ==> ChildDone(m, root, View(), path, c)
      ensures ok && Uncapped(View()) ==> truncated == old(truncated) + Cuts(m, path + [c])
      decreases m.options.maxDepth - depth, 0
    {
      ghost var before := View();
      WalkInBall(m, root, path, depth);
      assert LeadsFrom(m, root, path, Link(current, c, depth + 1, false));
      ok := Expand(c, current, depth);
      ghost var entered := View();
      if ok {
        ok := Walk(c, depth + 1, path + [c]);
        if ok {
          EnterDocuments(before, entered, View(), path, c);
          if Uncapped(View()) {
            EnteredIsDone(m, root, entered, View(), path, c);
          }
        }
      }
    }

    /** The provider joins the expanded nodes, at its least depth so far, and its link is recorded. */
    method Expand(c: nat, current: nat, depth: nat) returns (ok: bool)
      requires Sound(m, root, View())
      requires LinkOk(m, root, Link(current, c, depth + 1, false))
      requires depth < m.options.maxDepth && Reaches(m, root, c, depth + 1)
      requires c in expanded || |expanded| < m.options.maxNodes
      modifies this`expanded, this`minDepth, this`links
      ensures Sound(m, root, View()) && Grows(old(View()), View())
      ensures ok <==> current in m.known
      ensures View() == Entered(old(View()), c, depth + 1).(
        links := if ok then old(links) + [Link(current, c, depth + 1, false)] else old(links))
    {
      ghost var before := View();
      ghost var entered := Entered(before, c, depth + 1);
      expanded := expanded + {c};
      minDepth := minDepth[c := if c in minDepth && minDepth[c] < depth + 1 then minDepth[c] else depth + 1];
      assert View() == entered;
      EnterKeeps(m, root, before, c, depth + 1);
      ok := RecordLink(current, c, depth + 1, false);
      GrowsTransitively(before, entered, View());
    }

    /** `walk`. */
    method Walk(current: nat, depth: nat, path: seq<nat>) returns (ok: bool)
      requires Sound(m, root, View()) && OnPath(m, root, path, current, depth)
      modifies this
      ensures Sound(m, root, View()) && Grows(old(View()), View())
      ensures ok ==> Documented(old(View()), View(), path)
      ensures BallKnown(m, root) ==> ok
      ensures ok && Uncapped(View()) ==> Finished(m, root, View(), path)
      ensures ok && Uncapped(View()) ==> truncated == old(truncated) + Cuts(m, path)
      decreases m.options.maxDepth - depth, 4
    {
      if depth >= m.options.maxDepth {
        ok := RecordBranch(path, MaxDepth, 1);
        if ok {
          EndFinishes(m, root, View(), path, current, depth, MaxDepth);
        }
        return;
      }
      var providers := m.adjacency[current];
      if providers == [] {
        ok := RecordBranch(path, Leaf, 0);
        if ok {
          EndFinishes(m, root, View(), path, current, depth, Leaf);
        }
        return;
      }
      var ranked := Ranked(m, providers);
      RankedCounts(m, current);
      if ranked == [] {
        ok := RecordBranch(path, Cutoff, |providers|);
        if ok {
          EndFinishes(m, root, View(), path, current, depth, Cutoff);
        }
        return;
      }
      ok := VisitChildren(ranked, current, depth, path);
    }

    /** The loop of `walk` over the ranked providers up to the top-k limit. */
    method VisitKept(current: nat, depth: nat, path: seq<nat>) returns (ok: bool)
      requires Sound(m, root, View())
      requires OnPath(m, root, path, current, depth) && depth < m.options.maxDepth
      modifies this
      ensures Sound(m, root, View()) && Grows(old(View()), View())
      ensures BallKnown(m, root) ==> ok
      ensures ok ==> Visited(m, root, old(View()), View(), path, current, |Kept(m, current)|)
      ensures ok && Kept(m, current) != [] ==> Recorded(View(), path)
      ensures ok && Uncapped(View()) ==> truncated == old(truncated) + CutsBelow(m, path, |Kept(m, current)|)
      decreases m.options.maxDepth - depth, 2
    {
      var kept := Kept(m, current);
      ghost var start := View();
      for position := 0 to |kept|
        invariant Sound(m, root, View()) && Visited(m, root, start, View(), path, current, position)
        invariant position > 0 ==> Recorded(View(), path)
        invariant Uncapped(View()) ==> truncated == old(truncated) + CutsBelow(m, path, position)
      {
        ghost var before := View();
        ok := Visit(kept[position], current, depth, path);
        if !ok {
          return;
        }
        Longer(View(), path, kept[position]);
        VisitedOneMore(m, root, start, before, View(), path, current, position);
      }
      ok := true;
    }

    /** The providers beyond the top-k limit count as truncated, and end the branch if none was kept. */
    method CountBeyond(beyond: nat, current: nat, depth: nat, path: seq<nat>) returns (ok: bool)
      requires Sound(m, root, View())
      requires OnPath(m, root, path, current, depth) && depth < m.options.maxDepth
      requires Ranked(m, m.adjacency[current]) != [] && (Kept(m, current) != [] ==> Recorded(View(), path))
      modifies this`branches, this`truncated
      ensures Sound(m, root, View()) && Grows(old(View()), View())
      ensures ok ==> Documented(old(View()), View(), path) && EndRecorded(m, root, View(), path)
      ensures BallKnown(m, root) ==> ok
      ensures truncated == old(truncated) + beyond
      ensures Kept(m, current) != [] ==> ok && branches == old(branches)
    {
      RankedCounts(m, current);
      if Kept(m, current) == [] {
        ok := RecordBranch(path, TopK, beyond);
        EndIsUnique(m, root, path, TopK);
      } else {
        CountKeeps(m, root, View(), truncated + beyond);
        NoEnd(m, root, View(), path, current, depth);
        truncated := truncated + beyond;
        ok := true;
      }
    }

    /** Follows the kept providers; those beyond the limit only count as truncated. */
    method VisitChildren(ranked: seq<nat>, current: nat, depth: nat, path: seq<nat>) returns (ok: bool)
      requires Sound(m, root, View())
      requires OnPath(m, root, path, current, depth) && depth < m.options.maxDepth
      requires ranked == Ranked(m, m.adjacency[current]) && ranked != []
      modifies this
      ensures Sound(m, root, View()) && Grows(old(View()), View())
      ensures ok ==> Documented(old(View()), View(), path)
      ensures BallKnown(m, root) ==> ok
      ensures ok && Uncapped(View()) ==> Finished(m, root, View(), path)
      ensures ok && Uncapped(View()) ==> truncated == old(truncated) + Cuts(m, path)
      decreases m.options.maxDepth - depth, 3
    {
      ok := VisitKept(current, depth, path);
      if ok {
        ghost var visited := View();
        ok := CountBeyond(|ranked| - |Kept(m, current)|, current, depth, path);
        if ok {
          KeptExplore(m, root, old(View()), visited, View(), path, current, depth);
        } else {
          GrowsTransitively(old(View()), visited, View());
        }
      }
    }
  }

  /** The first `k` kept children have been visited since `a`. */
  ghost predicate Visited(m: Snapshot, root: nat, a: Progress, b: Progress, path: seq<nat>, current: nat, k: nat)
    requires current < |m.adjacency|
  {
    && Grows(a, b) && NewOnesShown(a, b) && OnceEach(a, b, path, Kept(m, current), k)
    && (Uncapped(b) ==> AllDone(m, root, b, path, Kept(m, current), k))
  }

  /** The branches recorded since `a` go through the first `k` children, and none is recorded twice. */
  ghost predicate OnceEach(a: Progress, b: Progress, path: seq<nat>, kept: seq<nat>, k: nat) {
    && Once(a, b, path)
    && (forall i :: |a.branches| <= i < |b.branches| ==> Through(b.branches[i].path, path, kept, k))
  }

  /** Paths through different children differ. */
  lemma OnceMore(a: Progress, b: Progress, c: Progress, path: seq<nat>, kept: seq<nat>, k: nat)
    requires k < |kept| && Distinct(kept)
    requires OnceEach(a, b, path, kept, k) && Once(b, c, path + [kept[k]])
    ensures OnceEach(a, c, path, kept, k + 1)
  {
    forall i | |a.branches| <= i < |c.branches|
      ensures path <= c.branches[i].path && Through(c.branches[i].path, path, kept, k + 1)
    {
      if i < |b.branches| {
        assert c.branches[i] == b.branches[i];
        var j :| 0 <= j < k && path + [kept[j]] <= b.branches[i].path;
      }
    }
    forall i, j | |a.branches| <= i < j < |c.branches| ensures c.branches[i] != c.branches[j] {
      if i < |b.branches| {
        assert c.branches[i] == b.branches[i];
        if j < |b.branches| {
          assert c.branches[j] == b.branches[j];
        } else {
          var l :| 0 <= l < k && path + [kept[l]] <= b.branches[i].path;
          assert c.branches[i].path[|path|] == kept[l] && c.branches[j].path[|path|] == kept[k];
        }
      }
    }
  }

  lemma OnceTogether(a: Progress, b: Progress, c: Progress, path: seq<nat>, kept: seq<nat>)
    requires OnceEach(a, b, path, kept, |kept|) && Once(b, c, path) && (kept != [] ==> b.branches == c.branches)
    ensures Once(a, c, path)
  {
    if |a.branches| < |b.branches| {
      assert Through(b.branches[|a.branches|].path, path, kept, |kept|);
    }
  }

  lemma VisitedOneMore(m: Snapshot, root: nat, a: Progress, b: Progress, c: Progress,
                       path: seq<nat>, current: nat, k: nat)
    requires current < |m.adjacency| && k < |Kept(m, current)|
    requires Visited(m, root, a, b, path, current, k) && Grows(b, c)
    requires Documented(b, c, path + [Kept(m, current)[k]])
    requires Uncapped(c) ==> ChildDone(m, root, c, path, Kept(m, current)[k])
    ensures Visited(m, root, a, c, path, current, k + 1)
  {
    ShownTransitively(a, b, c);
    KeptDistinct(m, current);
    OnceMore(a, b, c, path, Kept(m, current), k);
    if Uncapped(c) {
      assert Uncapped(b);
      OneMoreDone(m, root, b, c, path, Kept(m, current), k);
    }
  }

  /** What all kept children together have brought about, whatever was recorded after them. */
  lemma KeptExplore(m: Snapshot, root: nat, a: Progress, b: Progress, c: Progress,
                    path: seq<nat>, current: nat, depth: nat)
    requires OnPath(m, root, path, current, depth) && EndRecorded(m, root, c, path)
    requires Visited(m, root, a, b, path, current, |Kept(m, current)|) && Grows(b, c) && Documented(b, c, path)
    requires Kept(m, current) != [] ==> b.branches == c.branches
    ensures Grows(a, c) && Documented(a, c, path)
    ensures Uncapped(c) ==> Finished(m, root, c, path)
  {
    ShownTransitively(a, b, c);
    OnceTogether(a, b, c, path, Kept(m, current));
    if Uncapped(c) {
      assert Uncapped(b);
      forall j | 0 <= j < |Kept(m, current)| ensures ChildDone(m, root, c, path, Kept(m, current)[j]) {
        ChildDoneGrows(m, root, b, c, path, Kept(m, current)[j]);
      }
      AllDoneFinishes(m, root, c, path, current, depth);
    }
  }

  // ---------------------------------------------------------------------
  // The whole traversal
  // ---------------------------------------------------------------------

  /** Depth limit and distances in the pruned graph, without reference to any traversal. */
  ghost predicate IsBall(m: Snapshot, root: nat, s: Progress) {
    && s.expanded == Ball(m, root)
    && (forall v :: v in s.expanded ==> v in s.minDepth && Reaches(m, root, v, s.minDepth[v]))
    && (forall v, d: nat :: v in s.minDepth && Reaches(m, root, v, d) && d <= m.options.maxDepth ==> s.minDepth[v] <= d)
  }

  /** Anything within the depth limit is found by its simple paths already. */
  lemma WithinIsCovered(m: Snapshot, root: nat, s: Progress, v: nat, d: nat)
    requires Sound(m, root, s) && Explored(m, root, s, [root])
    requires Reaches(m, root, v, d) && d <= m.options.maxDepth
    ensures v in s.minDepth && s.minDepth[v] <= d
  {
    var p :| IsWalk(m, root, p) && p[|p| - 1] == v && |p| == d + 1;
    var q := Shorten(m, root, p);
    assert q == [root] + q[1..];
    assert Continues(m, root, [root], q[1..]);
    assert Covered(s, [root], q[1..]);
  }

  lemma ExploredIsBall(m: Snapshot, root: nat, s: Progress)
    requires Sound(m, root, s) && Explored(m, root, s, [root])
    ensures IsBall(m, root, s)
  {
    forall v, d: nat | Reaches(m, root, v, d) && d <= m.options.maxDepth
      ensures v in s.minDepth && s.minDepth[v] <= d
    {
      WithinIsCovered(m, root, s, v, d);
    }
    ExpandedInBall(m, root, s);
    assert forall v :: v in Ball(m, root) ==> v in s.minDepth;
  }

  lemma ExpandedInBall(m: Snapshot, root: nat, s: Progress)
    requires DepthsOk(m, root, s)
    ensures s.expanded <= Ball(m, root)
  {
    forall v | v in s.expanded ensures v in Ball(m, root) {
      var p :| IsWalk(m, root, p) && p[|p| - 1] == v && |p| == s.minDepth[v] + 1;
    }
  }

  lemma SubsetIsSmaller(a: set<nat>, b: set<nat>)
    requires a <= b
    ensures |a| <= |b|
  {
    assert b == a + (b - a);
  }

  /** A run that hits the cap has filled it, and the ball holds more. */
  lemma CappedIsLarger(m: Snapshot, root: nat, s: Progress)
    requires Sound(m, root, s) && !Uncapped(s)
    ensures |s.expanded| == Cap(m) < |Ball(m, root)|
  {
    var b :| b in s.branches && b.reason == MaxNodes;
    var last := b.path[|b.path| - 1];
    assert CapFull(m, s, b);
    WalkInBall(m, root, b.path, |b.path| - 1);
    ExpandedInBall(m, root, s);
    SubsetIsSmaller({root}, s.expanded);
    SubsetIsSmaller(s.expanded + {last}, Ball(m, root));
  }

  /** What a successful traversal has found. It depends on the graph alone whether that is everything:
      exactly when the ball fits the node cap, the ball is expanded with its distances, branches and
      links are all there are, and so many nodes are cut off as are counted; otherwise the cap is
      filled. */
  ghost predicate FoundAll(m: Snapshot, root: nat, s: Progress)
    requires root < |m.adjacency|
  {
    if |Ball(m, root)| <= Cap(m) then
      && IsBall(m, root, s)
      && (forall b :: b in s.branches <==> BranchOk(m, root, b) && b.reason != MaxNodes)
      && (forall l :: l in s.links <==> LinkOk(m, root, l))
      && (exists cuts :: AllCuts(m, root, cuts) && |cuts| == s.truncated)
    else |s.expanded| == Cap(m) && !Uncapped(s)
  }

  /** `cuts` holds each path to a node that is cut off once, and nothing else. */
  ghost predicate AllCuts(m: Snapshot, root: nat, cuts: seq<seq<nat>>) {
    NoneTwice(cuts) && forall q :: q in cuts <==> IsCut(m, root, q)
  }

  lemma CutsAreCounted(m: Snapshot, root: nat) returns (cuts: seq<seq<nat>>)
    requires root < |m.adjacency|
    ensures AllCuts(m, root, cuts) && |cuts| == Cuts(m, [root])
  {
    cuts := CutsAreListed(m, root, [root]);
  }

  lemma WalkedFindsAll(m: Snapshot, root: nat, s: Progress)
    requires Sound(m, root, s) && root < |m.adjacency|
    requires Uncapped(s) ==> Finished(m, root, s, [root]) && s.truncated == Cuts(m, [root])
    ensures FoundAll(m, root, s)
  {
    if Uncapped(s) {
      ExploredIsBall(m, root, s);
      var cuts := CutsAreCounted(m, root);
      forall b | BranchOk(m, root, b) && b.reason != MaxNodes ensures b in s.branches {
        assert [root] <= b.path;
      }
      forall l | LinkOk(m, root, l) ensures l in s.links {
        var p :| LeadsFrom(m, root, p, l);
        assert [root] <= p;
      }
    } else {
      CappedIsLarger(m, root, s);
    }
  }

  lemma RootIsSound(m: Snapshot, root: nat, s: Progress)
    requires root < |m.adjacency| && s == Progress({root}, map[root := 0], 0, [], [])
    ensures Sound(m, root, s) && OnPath(m, root, [root], root, 0)
  {
    assert IsWalk(m, root, [root]);
    assert Reaches(m, root, root, 0);
  }

  /** Every expanded node is in the index and lies on a recorded branch. */
  ghost predicate Shown(m: Snapshot, s: Progress) {
    forall v :: v in s.expanded ==> v in m.known && exists b :: b in s.branches && v in b.path
  }

  lemma RootShown(m: Snapshot, root: nat, start: Progress, s: Progress)
    requires Sound(m, root, s) && start.expanded == {root} && start.branches == [] && Documented(start, s, [root])
    ensures Shown(m, s) && Unrepeated(s)
  {
    var x :| x in s.branches && [root] <= x.path;
    forall v | v in s.expanded ensures v in m.known && exists b :: b in s.branches && v in b.path {
      if v == root {
        assert x.path[0] == root && root in x.path;
      }
      var b :| b in s.branches && v in b.path;
      assert Known(m, b.path);
    }
  }

  /** No branch is recorded twice. */
  ghost predicate Unrepeated(s: Progress) {
    forall i, j :: 0 <= i < j < |s.branches| ==> s.branches[i] != s.branches[j]
  }

  /** No branch ends for the top-k limit when the options were normalized. */
  ghost predicate NeverTopK(m: Snapshot, s: Progress) {
    forall raw :: m.options == Normalized(raw) ==> forall b :: b in s.branches ==> b.reason != TopK
  }

  lemma TopKIsPositive(m: Snapshot, root: nat, s: Progress)
    requires Sound(m, root, s)
    ensures NeverTopK(m, s)
  {
    forall b | b in s.branches ensures b.reason == TopK ==> m.options.topK == 0 {
      assert BranchOk(m, root, b);
    }
  }

  /** What follows for a successful run from what its walk ensures. */
  lemma Traversed(m: Snapshot, root: nat, start: Progress, s: Progress)
    requires root < |m.adjacency| && Sound(m, root, s)
    requires start.expanded == {root} && start.branches == [] && Documented(start, s, [root])
    requires Uncapped(s) ==> Finished(m, root, s, [root]) && s.truncated == Cuts(m, [root])
    ensures FoundAll(m, root, s) && Shown(m, s) && Unrepeated(s)
    ensures Uncapped(s) <==> |Ball(m, root)| <= Cap(m)
    ensures |Ball(m, root)| <= Cap(m) ==> BallKnown(m, root)
  {
    RootShown(m, root, start, s);
    WalkedFindsAll(m, root, s);
  }

  /** `traverse_upstream`: in every run the recorded facts are sound. It succeeds when the processes
      of the ball are in the snapshot index, and has then found all there is exactly when the ball
      fits the node cap. Every expanded node lies on a recorded branch and is in the index, no branch
      is recorded twice, and normalized options never end a branch for the top-k limit. */
  method TraverseUpstream(m: Snapshot, root: nat) returns (ok: bool, state: TraversalState)
    requires root < |m.adjacency|
    ensures state.m == m && Sound(m, root, state.View())
    ensures BallKnown(m, root) ==> ok
    ensures |Ball(m, root)| <= Cap(m) ==> (ok <==> BallKnown(m, root))
    ensures ok ==> FoundAll(m, root, state.View())
    ensures ok ==> (Uncapped(state.View()) <==> |Ball(m, root)| <= Cap(m))
    ensures ok ==> Shown(m, state.View()) && Unrepeated(state.View())
    ensures NeverTopK(m, state.View())
  {
    state := new TraversalState(m, root);
    ghost var start := state.View();
    RootIsSound(m, root, start);
    ok := state.Walk(root, 0, [root]);
    ghost var s := state.View();
    TopKIsPositive(m, root, s);
    if ok {
      Traversed(m, root, start, s);
    }
  }
}
