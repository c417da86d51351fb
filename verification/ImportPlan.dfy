/** Preparing a package import: repeated validation refines the blocked flags until the plan is
    fixed (crates/solver-worker/src/package_import_v2.rs). */
module ImportPlan {
  import opened Wrappers
  import opened ImportClosure

  const MAX_ROOTS := 2000
  const MAX_VALIDATION_DOCUMENT_VISITS := 2000000

  /** One validator finding: the document it is attributed to, and whether the import filter
      ignores it. */
  datatype Issue = Issue(node: Option<nat>, isError: bool, ignored: bool)

  /** A validation pass over the whole package (`scope` is absent) or over one root's closure. */
  datatype Pass = Pass(scope: Option<nat>, members: seq<nat>, issues: seq<Issue>)

  datatype Mode = WholePackage | RootGroups

  datatype Prepared = Prepared(mode: Mode, nodes: seq<Node>, plans: seq<GroupPlan>)

  predicate Blocks(issue: Issue, v: nat) {
    issue.node == Some(v) && issue.isError && !issue.ignored
  }

  ghost predicate PutsErrorOn(pass: Pass, v: nat) {
    exists i :: 0 <= i < |pass.issues| && Blocks(pass.issues[i], v)
  }

  /** Every error belongs to one of `count` documents. */
  ghost predicate Attributable(issues: seq<Issue>, count: nat) {
    forall i :: 0 <= i < |issues| && issues[i].isError ==> issues[i].node.Some? && issues[i].node.value < count
  }

  /** The validator: what its pass number `k` over a closure reports when given these members, or
      nothing when that pass, its staging or its bookkeeping fails. */
  type Validator = (nat, seq<nat>) -> Option<seq<Issue>>

  /** The validator answers every closure pass, and attributes what it reports. */
  ghost predicate Answers(validator: Validator, count: nat) {
    forall k: nat, members: seq<nat> ::
      validator(k, members).Some? && Attributable(validator(k, members).value, count)
  }

  /** Pass number `k` went over the members of its root's closure and holds the validator's answer. */
  ghost predicate Performed(validator: Validator, nodes: seq<Node>, k: nat, pass: Pass) {
    && pass.scope.Some? && HasMembers(nodes, pass.scope.value, pass.members)
    && validator(k, pass.members) == Some(pass.issues)
  }

  /** All passes but the first were performed, in this order. */
  ghost predicate AllPerformed(validator: Validator, nodes: seq<Node>, passes: seq<Pass>) {
    forall i :: 1 <= i < |passes| ==> Performed(validator, nodes, i - 1, passes[i])
  }

  /** Same documents and references; flags only rise. */
  ghost predicate Rises(before: seq<Node>, after: seq<Node>) {
    |after| == |before|
    && forall v :: 0 <= v < |before| ==>
         after[v].edges == before[v].edges && (before[v].blocked ==> after[v].blocked)
  }

  // ---------------------------------------------------------------------
  // Recording findings
  // ---------------------------------------------------------------------

  /** The attribution loop of `validate`: an error that belongs to no document is fatal, any other
      unignored error blocks its document and nothing else does. */
  method RecordIssues(before: seq<Node>, issues: seq<Issue>) returns (ok: bool, nodes: seq<Node>)
    ensures ok ==> Rises(before, nodes)
    ensures ok ==> forall v :: 0 <= v < |nodes| ==>
      (nodes[v].blocked <==> before[v].blocked || exists i :: 0 <= i < |issues| && Blocks(issues[i], v))
    ensures ok <==> Attributable(issues, |before|)
  {
    nodes := before;
    for k := 0 to |issues|
      invariant Rises(before, nodes)
      invariant forall v :: 0 <= v < |nodes| ==>
        (nodes[v].blocked <==> before[v].blocked || exists i :: 0 <= i < k && Blocks(issues[i], v))
      invariant forall i :: 0 <= i < k && issues[i].isError ==> issues[i].node.Some? && issues[i].node.value < |before|
    {
      var issue := issues[k];
      if issue.node.Some? && issue.node.value < |nodes| {
        var v := issue.node.value;
        nodes := nodes[v := nodes[v].(blocked := nodes[v].blocked || (issue.isError && !issue.ignored))];
      } else if issue.isError {
        return false, nodes;
      }
    }
    ok := true;
  }

  // ---------------------------------------------------------------------
  // Plans over rising flags
  // ---------------------------------------------------------------------

  lemma SameEdgesSamePaths(a: seq<Node>, b: seq<Node>, root: nat)
    requires |a| == |b| && forall v :: 0 <= v < |a| ==> a[v].edges == b[v].edges
    ensures forall v: nat :: Reachable(a, root, v) <==> Reachable(b, root, v)
  {
    forall v: nat ensures Reachable(a, root, v) <==> Reachable(b, root, v) {
      if Reachable(a, root, v) {
        var p :| IsPath(a, root, v, p);
        assert IsPath(b, root, v, p);
      }
      if Reachable(b, root, v) {
        var p :| IsPath(b, root, v, p);
        assert IsPath(a, root, v, p);
      }
    }
  }

  ghost predicate Ascends(p: seq<nat>) {
    forall i, j :: 0 <= i < j < |p| ==> p[i] < p[j]
  }

  lemma HasElement(q: seq<nat>)
    ensures q == [] || (q[0] in q && q[|q| - 1] in q)
  {
  }

  lemma LastIsGreatest(p: seq<nat>, v: nat)
    requires Ascends(p) && v in p
    ensures p != [] && v <= p[|p| - 1]
    ensures v == p[|p| - 1] || v in p[..|p| - 1]
  {
    var i :| 0 <= i < |p| && p[i] == v;
    if i < |p| - 1 {
      assert p[..|p| - 1][i] == v;
    }
  }

  lemma FrontWithin(p: seq<nat>, q: seq<nat>, v: nat)
    requires Ascends(p) && Ascends(q) && p != [] && q != [] && p[|p| - 1] == q[|q| - 1]
    requires forall x :: x in p ==> x in q
    requires v in p[..|p| - 1]
    ensures v in q[..|q| - 1]
  {
    LastIsGreatest(q, v);
  }

  /** Strictly ascending lists with the same elements are equal. */
  lemma {:induction false} AscendingUnique(p: seq<nat>, q: seq<nat>)
    requires Ascends(p) && Ascends(q)
    requires forall v :: v in p <==> v in q
    ensures p == q
    decreases |p|
  {
    HasElement(p);
    HasElement(q);
    if p == [] || q == [] {
    } else {
      LastIsGreatest(p, q[|q| - 1]);
      LastIsGreatest(q, p[|p| - 1]);
      var p', q' := p[..|p| - 1], q[..|q| - 1];
      forall v: nat ensures v in p' <==> v in q' {
        if v in p' {
          FrontWithin(p, q, v);
        }
        if v in q' {
          FrontWithin(q, p, v);
        }
      }
      AscendingUnique(p', q');
      assert p == p' + [p[|p| - 1]] && q == q' + [q[|q| - 1]];
    }
  }

  /** While references stay fixed the members of a root's closure do too, and they are unique. */
  lemma MembersStayFixed(a: seq<Node>, b: seq<Node>, root: nat, members: seq<nat>)
    requires Rises(a, b) && HasMembers(a, root, members)
    ensures HasMembers(b, root, members)
    ensures forall other :: HasMembers(b, root, other) ==> other == members
  {
    SameEdgesSamePaths(a, b, root);
    forall other | HasMembers(b, root, other) ensures other == members {
      AscendingUnique(other, members);
    }
  }

  /** A root whose closure was validated as a group. */
  ghost predicate ValidatedAs(passes: seq<Pass>, root: nat, members: seq<nat>) {
    exists i :: 0 <= i < |passes| && passes[i].scope == Some(root) && passes[i].members == members
  }

  ghost predicate ReachesBlocked(nodes: seq<Node>, root: nat) {
    exists v: nat :: v < |nodes| && Reachable(nodes, root, v) && nodes[v].blocked
  }

  ghost predicate FoundOn(passes: seq<Pass>, v: nat) {
    exists i :: 0 <= i < |passes| && PutsErrorOn(passes[i], v)
  }

  /** The blocked documents are exactly the `given` ones and those with an unignored error. */
  ghost predicate Reflected(given: set<nat>, nodes: seq<Node>, passes: seq<Pass>) {
    forall v: nat :: v < |nodes| ==> (nodes[v].blocked <==> v in given || FoundOn(passes, v))
  }

  ghost predicate HasMembers(nodes: seq<Node>, root: nat, members: seq<nat>) {
    (forall v :: v in members <==> Reachable(nodes, root, v)) && Ascends(members)
  }

  /** The root reaches a blocked document or had its closure validated. */
  ghost predicate RootChecked(nodes: seq<Node>, passes: seq<Pass>, root: nat) {
    ReachesBlocked(nodes, root)
    || exists members :: ValidatedAs(passes, root, members) && HasMembers(nodes, root, members)
  }

  ghost predicate Checked(nodes: seq<Node>, passes: seq<Pass>, roots: seq<nat>) {
    forall root :: root in roots ==> RootChecked(nodes, passes, root)
  }

  lemma StillReaches(a: seq<Node>, b: seq<Node>, root: nat)
    requires Rises(a, b) && ReachesBlocked(a, root)
    ensures ReachesBlocked(b, root)
  {
    SameEdgesSamePaths(a, b, root);
  }

  lemma StillChecked(a: seq<Node>, b: seq<Node>, passes: seq<Pass>, pass: Pass, roots: seq<nat>)
    requires Rises(a, b) && Checked(a, passes, roots)
    ensures Checked(b, passes + [pass], roots)
  {
    forall root | root in roots ensures RootChecked(b, passes + [pass], root) {
      assert RootChecked(a, passes, root);
      if ReachesBlocked(a, root) {
        StillReaches(a, b, root);
      } else {
        var members :| ValidatedAs(passes, root, members) && HasMembers(a, root, members);
        MembersStayFixed(a, b, root, members);
        var i :| 0 <= i < |passes| && passes[i].scope == Some(root) && passes[i].members == members;
        assert (passes + [pass])[i] == passes[i];
      }
    }
  }

  lemma StillPerformed(a: seq<Node>, b: seq<Node>, validator: Validator, passes: seq<Pass>, pass: Pass)
    requires Rises(a, b) && AllPerformed(validator, a, passes)
    requires passes != [] && Performed(validator, b, |passes| - 1, pass)
    ensures AllPerformed(validator, b, passes + [pass])
  {
    forall i | 1 <= i < |passes| ensures Performed(validator, b, i - 1, passes[i]) {
      assert Performed(validator, a, i - 1, passes[i]);
      MembersStayFixed(a, b, passes[i].scope.value, passes[i].members);
    }
  }

  lemma FoundOneMore(passes: seq<Pass>, pass: Pass, v: nat)
    ensures FoundOn(passes + [pass], v) <==> FoundOn(passes, v) || PutsErrorOn(pass, v)
  {
    if FoundOn(passes, v) {
      var i :| 0 <= i < |passes| && PutsErrorOn(passes[i], v);
      assert (passes + [pass])[i] == passes[i];
    }
    assert (passes + [pass])[|passes|] == pass;
  }

  lemma StillReflected(given: set<nat>, a: seq<Node>, b: seq<Node>, passes: seq<Pass>, pass: Pass)
    requires Rises(a, b) && Reflected(given, a, passes)
    requires forall v: nat :: v < |b| ==> (b[v].blocked <==> a[v].blocked || PutsErrorOn(pass, v))
    ensures Reflected(given, b, passes + [pass])
  {
    forall v: nat | v < |b| ensures b[v].blocked <==> v in given || FoundOn(passes + [pass], v) {
      FoundOneMore(passes, pass, v);
    }
  }

  // ---------------------------------------------------------------------
  // The closure validation loop
  // ---------------------------------------------------------------------

  /** A closure has no more members than the package has documents. */
  lemma {:induction false} AscendingFits(p: seq<nat>, bound: nat)
    requires Ascends(p) && forall v :: v in p ==> v < bound
    ensures |p| <= bound
    decreases |p|
  {
    if p == [] {
    } else {
      var front, last := p[..|p| - 1], p[|p| - 1];
      assert last in p;
      assert forall v :: v in front ==> v < last;
      AscendingFits(front, last);
    }
  }

  lemma MembersFit(nodes: seq<Node>, root: nat, plan: GroupPlan)
    requires IsPlan(nodes, root, plan)
    ensures |plan.members| <= |nodes|
  {
    forall v | v in plan.members ensures v < |nodes| {
      var p :| IsPath(nodes, root, v, p);
      assert p[|p| - 1] < |nodes|;
    }
    AscendingFits(plan.members, |nodes|);
  }

  /** Room for `roots` closures of all `documents` each. */
  ghost function Room(roots: nat, documents: nat): nat {
    if roots == 0 then 0 else Room(roots - 1, documents) + documents
  }

  lemma {:induction false} RoomGrows(k: nat, roots: nat, documents: nat)
    requires k <= roots
    ensures Room(k, documents) <= Room(roots, documents)
    decreases roots - k
  {
    if k == roots {
    } else {
      RoomGrows(k + 1, roots, documents);
    }
  }

  lemma {:induction false} RoomIsProduct(roots: nat, documents: nat)
    ensures Room(roots, documents) == roots * documents
  {
    if roots == 0 {
    } else {
      RoomIsProduct(roots - 1, documents);
      assert roots * documents == (roots - 1) * documents + documents;
    }
  }

  /** One closure pass: its findings are recorded, and its root counts as checked. */
  method ValidateOne(start: seq<Node>, root: nat, group: GroupPlan, validator: Validator, number: nat,
                     ghost given: set<nat>, ghost earlier: seq<Pass>, ghost done: seq<nat>)
    returns (ok: bool, nodes: seq<Node>, ghost passes: seq<Pass>)
    requires Reflected(given, start, earlier) && Checked(start, earlier, done)
    requires AllPerformed(validator, start, earlier) && |earlier| == number + 1
    requires IsPlan(start, root, group)
    ensures ok ==> Rises(start, nodes) && Reflected(given, nodes, passes) && Checked(nodes, passes, done)
    ensures ok ==> RootChecked(nodes, passes, root) && AllPerformed(validator, nodes, passes)
    ensures ok <==>
      validator(number, group.members).Some? && Attributable(validator(number, group.members).value, |start|)
    ensures ok ==> passes == earlier + [Pass(Some(root), group.members, validator(number, group.members).value)]
  {
    nodes, passes := start, earlier;
    var verdict := validator(number, group.members);
    if verdict.None? {
      return false, nodes, passes;
    }
    ok, nodes := RecordIssues(start, verdict.value);
    if ok {
      ghost var pass := Pass(Some(root), group.members, verdict.value);
      MembersStayFixed(start, nodes, root, group.members);
      StillChecked(start, nodes, passes, pass, done);
      StillReflected(given, start, nodes, passes, pass);
      StillPerformed(start, nodes, validator, passes, pass);
      passes := passes + [pass];
      assert passes[|passes| - 1] == pass;
      assert ValidatedAs(passes, root, group.members);
    }
  }

  /** Validates each root's closure unless it already reaches a blocked document. */
  method ValidateClosures(start: seq<Node>, roots: seq<nat>, validator: Validator,
                          ghost given: set<nat>, ghost package: Pass)
    returns (ok: bool, nodes: seq<Node>, ghost passes: seq<Pass>)
    requires WellFormed(start) && forall k :: 0 <= k < |roots| ==> roots[k] < |start|
    requires Reflected(given, start, [package])
    ensures ok ==> Rises(start, nodes)
    ensures ok ==> Reflected(given, nodes, passes) && Checked(nodes, passes, roots)
    ensures ok ==> passes != [] && passes[0] == package && AllPerformed(validator, nodes, passes)
    ensures Answers(validator, |start|) && Room(|roots|, |start|) <= MAX_VALIDATION_DOCUMENT_VISITS ==> ok
  {
    nodes, passes := start, [package];
    var visits, answered := 0, 0;
    for k := 0 to |roots|
      invariant Rises(start, nodes) && WellFormed(nodes)
      invariant Reflected(given, nodes, passes) && Checked(nodes, passes, roots[..k])
      invariant |passes| == answered + 1 && passes[0] == package && AllPerformed(validator, nodes, passes)
      invariant visits <= Room(k, |start|)
    {
      var group := Closure(nodes, roots[k]);
      if !group.blocked {
        MembersFit(nodes, roots[k], group);
        RoomGrows(k + 1, |roots|, |start|);
        visits := visits + |group.members|;
        if visits > MAX_VALIDATION_DOCUMENT_VISITS {
          return false, nodes, passes;
        }
        ok, nodes, passes := ValidateOne(nodes, roots[k], group, validator, answered, given, passes, roots[..k]);
        answered := answered + 1;
        if !ok {
          return;
        }
      }
      assert RootChecked(nodes, passes, roots[k]);
      assert roots[..k + 1] == roots[..k] + [roots[k]];
    }
    assert roots[..|roots|] == roots;
    ok := true;
  }

  method PlanRoots(nodes: seq<Node>, roots: seq<nat>) returns (plans: seq<GroupPlan>)
    requires WellFormed(nodes) && forall k :: 0 <= k < |roots| ==> roots[k] < |nodes|
    ensures |plans| == |roots| && forall k :: 0 <= k < |roots| ==> IsPlan(nodes, roots[k], plans[k])
  {
    plans := [];
    for k := 0 to |roots|
      invariant |plans| == k && forall j :: 0 <= j < k ==> IsPlan(nodes, roots[j], plans[j])
    {
      var plan := Closure(nodes, roots[k]);
      plans := plans + [plan];
    }
  }

  /** `import_mode`. */
  function ImportMode(nodes: seq<Node>): Mode {
    if nodes != [] && forall v :: 0 <= v < |nodes| ==> !nodes[v].blocked then WholePackage else RootGroups
  }

  /** What an unblocked root of the final plan has been through. */
  ghost predicate Cleared(passes: seq<Pass>, plan: GroupPlan) {
    && ValidatedAs(passes, plan.root, plan.members)
    && forall i, v :: 0 <= i < |passes| && v in plan.members ==> !PutsErrorOn(passes[i], v)
  }

  lemma UnblockedIsCleared(given: set<nat>, nodes: seq<Node>, passes: seq<Pass>, roots: seq<nat>, k: nat,
                           plan: GroupPlan)
    requires k < |roots| && Checked(nodes, passes, roots) && Reflected(given, nodes, passes)
    requires IsPlan(nodes, roots[k], plan) && !plan.blocked
    ensures Cleared(passes, plan)
  {
    assert RootChecked(nodes, passes, roots[k]);
    forall v | v in plan.members ensures v < |nodes| && !nodes[v].blocked {
      var p :| IsPath(nodes, roots[k], v, p);
      assert p[|p| - 1] < |nodes|;
    }
    var members :| ValidatedAs(passes, roots[k], members) && HasMembers(nodes, roots[k], members);
    MembersStayFixed(nodes, nodes, roots[k], members);
    assert HasMembers(nodes, roots[k], plan.members);
    forall i, v | 0 <= i < |passes| && v in plan.members ensures !PutsErrorOn(passes[i], v) {
      assert !FoundOn(passes, v);
    }
  }

  /** The part of `prepare` after extraction and indexing: a package-wide pass, the reference graph
      (which may block further documents), closure passes in root-group mode, then the plan file,
      which `writes` tells can be written within its size limit. */
  method Prepare(indexed: seq<Node>, packageVerdict: Option<seq<Issue>>, graph: seq<Node>, roots: seq<nat>,
                 validator: Validator, writes: seq<GroupPlan> -> bool)
    returns (result: Option<Prepared>, ghost passes: seq<Pass>)
    requires WellFormed(graph) && |graph| == |indexed| && forall k :: 0 <= k < |roots| ==> roots[k] < |graph|
    ensures (&& packageVerdict.Some? && Attributable(packageVerdict.value, |graph|) && |roots| <= MAX_ROOTS
             && Answers(validator, |graph|) && |roots| * |graph| <= MAX_VALIDATION_DOCUMENT_VISITS
             && forall plans :: writes(plans))
            ==> result.Some?
    ensures result.Some? ==>
      var r := result.value;
      && packageVerdict.Some? && passes != [] && passes[0] == Pass(None, [], packageVerdict.value)
      && AllPerformed(validator, r.nodes, passes)
      && |r.plans| == |roots| && |r.nodes| == |graph| && writes(r.plans)
      && (forall v :: 0 <= v < |graph| ==> r.nodes[v].edges == graph[v].edges)
      && (forall v: nat :: v < |graph| ==>
            (r.nodes[v].blocked <==> indexed[v].blocked || graph[v].blocked || FoundOn(passes, v)))
      && (forall k :: 0 <= k < |roots| ==> IsPlan(r.nodes, roots[k], r.plans[k]))
      && (r.mode == RootGroups ==> forall k :: 0 <= k < |roots| && !r.plans[k].blocked ==> Cleared(passes, r.plans[k]))
      && (r.mode == WholePackage ==> |passes| == 1 && forall v: nat :: v < |r.nodes| ==> !r.nodes[v].blocked)
      && (r.mode == WholePackage <==> |graph| > 0 && forall v: nat :: v < |graph| ==>
            !indexed[v].blocked && !graph[v].blocked && !PutsErrorOn(passes[0], v))
  {
    passes := [];
    if packageVerdict.None? {
      return None, passes;
    }
    var recorded, marked := RecordIssues(indexed, packageVerdict.value);
    if !recorded || |roots| > MAX_ROOTS {
      return None, passes;
    }
    var nodes := seq(|graph|, v requires 0 <= v < |graph| =>
      Node(marked[v].blocked || graph[v].blocked, graph[v].edges));
    ghost var package := Pass(None, [], packageVerdict.value);
    passes := [package];
    assert WellFormed(nodes) by {
      forall i, t | 0 <= i < |nodes| && t in nodes[i].edges ensures t < |nodes| {
        assert t in graph[i].edges;
      }
    }
    ghost var given := set v: nat | v < |graph| && (indexed[v].blocked || graph[v].blocked);
    forall v: nat | v < |nodes|
      ensures nodes[v].blocked <==> v in given || FoundOn(passes, v)
      ensures FoundOn(passes, v) <==> PutsErrorOn(package, v)
    {
      FoundOneMore([], package, v);
      assert [] + [package] == passes;
    }
    var mode := ImportMode(nodes);
    if mode == RootGroups {
      var ok;
      RoomIsProduct(|roots|, |graph|);
      ok, nodes, passes := ValidateClosures(nodes, roots, validator, given, package);
      if !ok {
        return None, passes;
      }
      assert WellFormed(nodes);
    }
    var plans := PlanRoots(nodes, roots);
    if !writes(plans) {
      return None, passes;
    }
    if mode == RootGroups {
      forall k | 0 <= k < |roots| && !plans[k].blocked ensures Cleared(passes, plans[k]) {
        UnblockedIsCleared(given, nodes, passes, roots, k, plans[k]);
      }
    }
    result := Some(Prepared(mode, nodes, plans));
  }
}
