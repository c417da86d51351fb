/** The nodes a contribution traversal cuts off, and how it counts them
    (crates/solver-worker/src/contribution_path.rs). */
module ContributionCuts {
  import opened ContributionGraph

  // ---------------------------------------------------------------------
  // Paths to what is cut off
  // ---------------------------------------------------------------------

  ghost predicate IsSimple(m: Snapshot, root: nat, p: seq<nat>) {
    IsWalk(m, root, p) && Distinct(p)
  }

  /** `p` ends within the depth limit and `v`, one of the providers there, is not entered from it: it
      would close a cycle, or it counts but has too many ahead of it, or no provider there counts. */
  ghost predicate CutAfter(m: Snapshot, root: nat, p: seq<nat>, v: nat) {
    && IsSimple(m, root, p) && |p| <= m.options.maxDepth && v in m.adjacency[p[|p| - 1]]
    && (if v in Kept(m, p[|p| - 1]) then v in p
        else Counts(m, v) || NoneCounts(m, p[|p| - 1]))
  }

  /** `q` leads to a node that is cut off: at the depth limit, or as the provider that ends it. */
  ghost predicate IsCut(m: Snapshot, root: nat, q: seq<nat>) {
    || (|q| == m.options.maxDepth + 1 && IsSimple(m, root, q))
    || (|q| > 1 && CutAfter(m, root, q[..|q| - 1], q[|q| - 1]))
  }

  ghost predicate NoneTwice(list: seq<seq<nat>>) {
    forall i, j :: 0 <= i < j < |list| ==> list[i] != list[j]
  }

  /** `list` holds each cut that begins with `path` once, and nothing else. */
  ghost predicate ListsCuts(m: Snapshot, root: nat, path: seq<nat>, list: seq<seq<nat>>) {
    NoneTwice(list) && forall q :: q in list <==> path <= q && IsCut(m, root, q)
  }

  // ---------------------------------------------------------------------
  // Counting them as the traversal does
  // ---------------------------------------------------------------------

  /** How many nodes are cut off at and below `path`: the end of each path at the depth limit or on a
      cycle, all providers where none passes the cutoff, and those beyond the top-k limit. */
  ghost function Cuts(m: Snapshot, path: seq<nat>): nat
    requires path != [] && path[|path| - 1] < |m.adjacency|
    decreases m.options.maxDepth + 1 - |path|, 2, 0
  {
    var current := path[|path| - 1];
    var ranked := Ranked(m, m.adjacency[current]);
    if |path| > m.options.maxDepth then 1
    else if ranked == [] then |m.adjacency[current]|
    else |ranked| - |Kept(m, current)| + CutsBelow(m, path, |Kept(m, current)|)
  }

  ghost function CutsBelow(m: Snapshot, path: seq<nat>, k: nat): nat
    requires path != [] && path[|path| - 1] < |m.adjacency| && |path| <= m.options.maxDepth
    requires k <= |Kept(m, path[|path| - 1])|
    decreases m.options.maxDepth + 1 - |path|, 1, k
  {
    if k == 0 then 0
    else
      KeptInBounds(m, path[|path| - 1]);
      CutsBelow(m, path, k - 1) + CutsAt(m, path, Kept(m, path[|path| - 1])[k - 1])
  }

  ghost function CutsAt(m: Snapshot, path: seq<nat>, c: nat): nat
    requires c < |m.adjacency| && |path| <= m.options.maxDepth
    decreases m.options.maxDepth + 1 - |path|, 0, 0
  {
    if c in path then 1 else Cuts(m, path + [c])
  }

  // ---------------------------------------------------------------------
  // The count is the number of cuts
  // ---------------------------------------------------------------------

  /** One path for each of the nodes in `s`. */
  ghost function Steps(path: seq<nat>, s: seq<nat>): seq<seq<nat>> {
    seq(|s|, i requires 0 <= i < |s| => path + [s[i]])
  }

  lemma StepsMembers(path: seq<nat>, s: seq<nat>)
    requires Distinct(s)
    ensures NoneTwice(Steps(path, s))
    ensures forall q :: q in Steps(path, s) <==> |q| == |path| + 1 && path <= q && q[|path|] in s
  {
    var list := Steps(path, s);
    forall i, j | 0 <= i < j < |list| ensures list[i] != list[j] {
      assert list[i][|path|] == s[i] && list[j][|path|] == s[j];
    }
    forall q ensures q in list <==> |q| == |path| + 1 && path <= q && q[|path|] in s {
      if |q| == |path| + 1 && path <= q && q[|path|] in s {
        var i :| 0 <= i < |s| && s[i] == q[|path|];
        assert q == path + [s[i]] == list[i];
      }
    }
  }

  lemma JoinLists(a: seq<seq<nat>>, b: seq<seq<nat>>)
    requires NoneTwice(a) && NoneTwice(b) && forall q :: q in a ==> q !in b
    ensures NoneTwice(a + b)
  {
    forall i, j | 0 <= i < j < |a + b| ensures (a + b)[i] != (a + b)[j] {
      if i < |a| <= j {
        assert a[i] in a && b[j - |a|] in b;
      }
    }
  }

  /** A simple path within the depth limit is no cut itself. */
  lemma NoCutYet(m: Snapshot, root: nat, path: seq<nat>)
    requires IsSimple(m, root, path) && |path| <= m.options.maxDepth
    ensures !IsCut(m, root, path)
  {
    if |path| > 1 {
      NotRepeated(path, |path| - 1);
      assert path[|path| - 1] in Kept(m, path[|path| - 2]);
    }
  }

  /** A longer simple path goes on to a kept child off the path. */
  lemma NextOnPath(m: Snapshot, root: nat, path: seq<nat>, p: seq<nat>)
    requires path != [] && IsSimple(m, root, p) && path <= p && |path| < |p|
    ensures p[|path|] in Kept(m, path[|path| - 1]) && p[|path|] !in path && IsSimple(m, root, path + [p[|path|]])
  {
    var n := |path|;
    NotRepeated(p, n);
    assert p[..n] == path;
    assert path + [p[n]] == p[..n + 1];
  }

  /** A cut that goes further than `path` goes to a provider of its end; beyond that, a kept one that
      does not close a cycle. */
  lemma NextOnCut(m: Snapshot, root: nat, path: seq<nat>, q: seq<nat>)
    requires IsSimple(m, root, path) && |path| <= m.options.maxDepth
    requires IsCut(m, root, q) && path <= q && |path| < |q|
    ensures q[|path|] in m.adjacency[path[|path| - 1]]
    ensures |q| > |path| + 1 || IsSimple(m, root, q) ==>
      q[|path|] in Kept(m, path[|path| - 1]) && q[|path|] !in path && IsSimple(m, root, path + [q[|path|]])
    ensures |q| == |path| + 1 && !IsSimple(m, root, q) ==> CutAfter(m, root, path, q[|path|])
  {
    KeptAreProviders(m, path[|path| - 1]);
    if IsSimple(m, root, q) {
      NextOnPath(m, root, path, q);
    } else if |q| > |path| + 1 {
      NextOnPath(m, root, path, q[..|q| - 1]);
    } else {
      assert q[..|q| - 1] == path;
    }
  }

  /** Cuts through the first `k` kept children. */
  ghost predicate ListsThrough(m: Snapshot, root: nat, path: seq<nat>, kept: seq<nat>, k: nat, list: seq<seq<nat>>) {
    NoneTwice(list) && forall q :: q in list <==> IsCut(m, root, q) && Through(q, path, kept, k)
  }

  lemma {:induction false} CutsAreListed(m: Snapshot, root: nat, path: seq<nat>) returns (list: seq<seq<nat>>)
    requires IsSimple(m, root, path) && |path| <= m.options.maxDepth + 1
    ensures ListsCuts(m, root, path, list) && |list| == Cuts(m, path)
    decreases m.options.maxDepth + 1 - |path|, 2, 0
  {
    var current := path[|path| - 1];
    if |path| > m.options.maxDepth {
      list := [path];
      LimitIsOnlyCut(m, root, path);
    } else if Ranked(m, m.adjacency[current]) == [] {
      list := Steps(path, m.adjacency[current]);
      NothingCounts(m, root, path);
    } else {
      var below := CutsBelowListed(m, root, path, |Kept(m, current)|);
      list := BeyondAndBelow(m, root, path, below);
    }
  }

  lemma LimitIsOnlyCut(m: Snapshot, root: nat, path: seq<nat>)
    requires IsSimple(m, root, path) && |path| == m.options.maxDepth + 1
    ensures ListsCuts(m, root, path, [path])
  {
    forall q ensures q in [path] <==> path <= q && IsCut(m, root, q) {
      if path <= q && |q| <= |path| {
        assert q == path;
      }
    }
  }

  lemma NothingCounts(m: Snapshot, root: nat, path: seq<nat>)
    requires IsSimple(m, root, path) && |path| <= m.options.maxDepth
    requires Ranked(m, m.adjacency[path[|path| - 1]]) == []
    ensures ListsCuts(m, root, path, Steps(path, m.adjacency[path[|path| - 1]]))
  {
    var current := path[|path| - 1];
    StepsMembers(path, m.adjacency[current]);
    RankedCounts(m, current);
    forall q ensures q in Steps(path, m.adjacency[current]) <==> path <= q && IsCut(m, root, q) {
      if path <= q && IsCut(m, root, q) {
        NoCutYet(m, root, path);
        assert q != path;
        NextOnCut(m, root, path, q);
      }
      if q in Steps(path, m.adjacency[current]) {
        assert q[..|q| - 1] == path && q[|q| - 1] == q[|path|];
        assert CutAfter(m, root, path, q[|path|]);
      }
    }
  }

  lemma {:induction false} CutsBelowListed(m: Snapshot, root: nat, path: seq<nat>, k: nat)
    returns (list: seq<seq<nat>>)
    requires IsSimple(m, root, path) && |path| <= m.options.maxDepth && k <= |Kept(m, path[|path| - 1])|
    ensures ListsThrough(m, root, path, Kept(m, path[|path| - 1]), k, list) && |list| == CutsBelow(m, path, k)
    decreases m.options.maxDepth + 1 - |path|, 1, k
  {
    var kept := Kept(m, path[|path| - 1]);
    if k == 0 {
      list := [];
      return;
    }
    KeptInBounds(m, path[|path| - 1]);
    var front := CutsBelowListed(m, root, path, k - 1);
    var back := CutsAtListed(m, root, path, kept[k - 1]);
    ThroughOneMore(m, root, path, k, front, back);
    list := front + back;
  }

  lemma {:induction false} CutsAtListed(m: Snapshot, root: nat, path: seq<nat>, c: nat) returns (list: seq<seq<nat>>)
    requires IsSimple(m, root, path) && |path| <= m.options.maxDepth && c in Kept(m, path[|path| - 1])
    requires c < |m.adjacency|
    ensures ListsCuts(m, root, path + [c], list) && |list| == CutsAt(m, path, c)
    decreases m.options.maxDepth + 1 - |path|, 0, 0
  {
    if c in path {
      list := [path + [c]];
      CycleIsOnlyCut(m, root, path, c);
    } else {
      StepIsSimple(m, root, path, c);
      list := CutsAreListed(m, root, path + [c]);
    }
  }

  lemma StepIsSimple(m: Snapshot, root: nat, path: seq<nat>, c: nat)
    requires IsSimple(m, root, path) && c in Kept(m, path[|path| - 1]) && c < |m.adjacency| && c !in path
    ensures IsSimple(m, root, path + [c])
  {
    var next := path + [c];
    forall i, j | 0 <= i && j == i + 1 < |next| ensures next[j] in Kept(m, next[i]) {
      if j < |path| {
        assert next[j] == path[j] && next[i] == path[i];
      }
    }
  }

  lemma CycleIsOnlyCut(m: Snapshot, root: nat, path: seq<nat>, c: nat)
    requires IsSimple(m, root, path) && |path| <= m.options.maxDepth
    requires c in Kept(m, path[|path| - 1]) && c in path
    ensures ListsCuts(m, root, path + [c], [path + [c]])
  {
    KeptAreProviders(m, path[|path| - 1]);
    assert (path + [c])[..|path|] == path;
    assert CutAfter(m, root, path, c);
    forall q ensures q in [path + [c]] <==> path + [c] <= q && IsCut(m, root, q) {
      if path + [c] <= q && IsCut(m, root, q) {
        assert (path + [c])[|path|] == c;
        assert path <= q && q[|path|] == c;
        NextOnCut(m, root, path, q);
        assert |q| == |path| + 1;
        assert q == path + [c];
      }
    }
  }

  lemma ThroughOneMore(m: Snapshot, root: nat, path: seq<nat>, k: nat, front: seq<seq<nat>>, back: seq<seq<nat>>)
    requires IsSimple(m, root, path) && 0 < k <= |Kept(m, path[|path| - 1])|
    requires ListsThrough(m, root, path, Kept(m, path[|path| - 1]), k - 1, front)
    requires ListsCuts(m, root, path + [Kept(m, path[|path| - 1])[k - 1]], back)
    ensures ListsThrough(m, root, path, Kept(m, path[|path| - 1]), k, front + back)
  {
    var kept := Kept(m, path[|path| - 1]);
    KeptDistinct(m, path[|path| - 1]);
    forall q | q in front ensures q !in back {
      var j :| 0 <= j < k - 1 && path + [kept[j]] <= q;
      assert (path + [kept[j]])[|path|] == q[|path|];
    }
    JoinLists(front, back);
    forall q ensures Through(q, path, kept, k) <==> Through(q, path, kept, k - 1) || path + [kept[k - 1]] <= q {
      if j :| 0 <= j < k && path + [kept[j]] <= q {
        assert j == k - 1 || j < k - 1;
      }
    }
  }

  lemma ThroughNext(q: seq<nat>, path: seq<nat>, kept: seq<nat>, k: nat)
    requires Through(q, path, kept, k)
    ensures path <= q && |path| < |q| && q[|path|] in kept
  {
    var j :| 0 <= j < k && j < |kept| && path + [kept[j]] <= q;
    assert (path + [kept[j]])[|path|] == q[|path|];
  }

  /** The cuts beyond the top-k limit and those below the kept children. */
  lemma BeyondAndBelow(m: Snapshot, root: nat, path: seq<nat>, below: seq<seq<nat>>) returns (list: seq<seq<nat>>)
    requires IsSimple(m, root, path) && |path| <= m.options.maxDepth
    requires Ranked(m, m.adjacency[path[|path| - 1]]) != []
    requires ListsThrough(m, root, path, Kept(m, path[|path| - 1]), |Kept(m, path[|path| - 1])|, below)
    ensures ListsCuts(m, root, path, list)
    ensures |list| == |Ranked(m, m.adjacency[path[|path| - 1]])| - |Kept(m, path[|path| - 1])| + |below|
  {
    var current := path[|path| - 1];
    var kept, ranked := Kept(m, current), Ranked(m, m.adjacency[current]);
    var beyond := ranked[|kept|..];
    RankedSplits(m, current);
    StepsMembers(path, beyond);
    list := Steps(path, beyond) + below;
    forall q | q in below ensures q !in Steps(path, beyond) {
      ThroughNext(q, path, kept, |kept|);
    }
    JoinLists(Steps(path, beyond), below);
    forall q ensures q in list <==> path <= q && IsCut(m, root, q) {
      if q in Steps(path, beyond) {
        BeyondIsCut(m, root, path, q);
      } else if q in below {
        ThroughNext(q, path, kept, |kept|);
      } else if path <= q && IsCut(m, root, q) {
        CutIsFound(m, root, path, q);
      }
    }
  }

  lemma BeyondIsCut(m: Snapshot, root: nat, path: seq<nat>, q: seq<nat>)
    requires IsSimple(m, root, path) && |path| <= m.options.maxDepth
    requires |q| == |path| + 1 && path <= q
    requires q[|path|] in Ranked(m, m.adjacency[path[|path| - 1]])[|Kept(m, path[|path| - 1])|..]
    ensures IsCut(m, root, q)
  {
    RankedSplits(m, path[|path| - 1]);
    RankedCounts(m, path[|path| - 1]);
    assert q[..|q| - 1] == path;
    assert CutAfter(m, root, path, q[|path|]);
  }

  lemma CutIsFound(m: Snapshot, root: nat, path: seq<nat>, q: seq<nat>)
    requires IsSimple(m, root, path) && |path| <= m.options.maxDepth
    requires path <= q && IsCut(m, root, q)
    requires Ranked(m, m.adjacency[path[|path| - 1]]) != []
    ensures |q| > |path|
    ensures var current := path[|path| - 1];
            || Through(q, path, Kept(m, current), |Kept(m, current)|)
            || (|q| == |path| + 1 && q[|path|] in Ranked(m, m.adjacency[current])[|Kept(m, current)|..])
  {
    var current := path[|path| - 1];
    var kept := Kept(m, current);
    NoCutYet(m, root, path);
    assert q != path;
    NextOnCut(m, root, path, q);
    RankedSplits(m, current);
    RankedCounts(m, current);
    if q[|path|] in kept {
      var j :| 0 <= j < |kept| && kept[j] == q[|path|];
      assert path + [kept[j]] <= q;
    }
  }
}
