/**
 * The merge of a user's threads into one forest, as the user-specific
 * comment listing builds it: each thread's chain (root first, target last)
 * is walked down from a root node picked by id, reusing a child with the
 * next comment's id where one exists and adding a clone of the comment
 * with no children otherwise.
 *
 * The nodes live in an arena: `nodes` holds the clones in creation order,
 * `kids[i]` the indices of node i's children in insertion order, and
 * `roots` the root map's nodes in insertion order.
 */
module Merge {
  import opened Wrappers
  import opened Text
  import opened CommentModel

  datatype Forest = Forest(nodes: seq<Comment>, kids: seq<seq<nat>>, roots: seq<nat>)

  const Empty := Forest([], [], [])

  /** The children of node `i` point into the arena, after `i`: a child is always created after its parent. */
  predicate Above(ks: seq<nat>, i: nat, n: nat) {
    forall j :: 0 <= j < |ks| ==> i < ks[j] < n
  }

  predicate InArena(nodes: seq<Comment>, ks: seq<nat>) {
    forall j :: 0 <= j < |ks| ==> ks[j] < |nodes|
  }

  predicate Valid(f: Forest) {
    |f.kids| == |f.nodes| &&
    (forall i :: 0 <= i < |f.kids| ==> Above(f.kids[i], i, |f.nodes|)) &&
    InArena(f.nodes, f.roots)
  }

  /** The first of the nodes `ks` with id `id`: the root map's lookup, or the search among a node's children. */
  function FindIn(nodes: seq<Comment>, ks: seq<nat>, id: Uuid): (r: Option<nat>)
    requires InArena(nodes, ks)
    ensures r.Some? ==> r.value in ks && r.value < |nodes| && nodes[r.value].id == id
    ensures r.None? <==> forall j :: 0 <= j < |ks| ==> nodes[ks[j]].id != id
    decreases |ks|
  {
    if |ks| == 0 then None
    else if nodes[ks[0]].id == id then Some(ks[0])
    else FindIn(nodes, ks[1..], id)
  }

  predicate IsPrefix<T(==)>(a: seq<T>, b: seq<T>) {
    |a| <= |b| && b[..|a|] == a
  }

  /** `g` grew from `f`: nodes were only added, and children and roots only appended. */
  predicate Extends(f: Forest, g: Forest) {
    IsPrefix(f.nodes, g.nodes) && |f.kids| <= |g.kids| &&
    (forall i :: 0 <= i < |f.kids| ==> IsPrefix(f.kids[i], g.kids[i])) &&
    IsPrefix(f.roots, g.roots)
  }

  lemma ExtendsReflexive(f: Forest)
    ensures Extends(f, f)
  {
    forall i | 0 <= i < |f.kids| ensures IsPrefix(f.kids[i], f.kids[i]) {
      assert f.kids[i][..|f.kids[i]|] == f.kids[i];
    }
    assert f.nodes[..|f.nodes|] == f.nodes;
    assert f.roots[..|f.roots|] == f.roots;
  }

  lemma ExtendsTransitive(f: Forest, g: Forest, h: Forest)
    requires Extends(f, g) && Extends(g, h)
    ensures Extends(f, h)
  {
    forall i | 0 <= i < |f.kids| ensures IsPrefix(f.kids[i], h.kids[i]) {
      assert h.kids[i][..|g.kids[i]|][..|f.kids[i]|] == h.kids[i][..|f.kids[i]|];
    }
    assert h.nodes[..|g.nodes|][..|f.nodes|] == h.nodes[..|f.nodes|];
    assert h.roots[..|g.roots|][..|f.roots|] == h.roots[..|f.roots|];
  }

  /** A search that succeeds keeps its answer when the nodes and the list searched only grow. */
  lemma {:induction false} FindInStable(nodes: seq<Comment>, ks: seq<nat>, nodes': seq<Comment>, ks': seq<nat>, id: Uuid)
    requires InArena(nodes, ks) && InArena(nodes', ks') && IsPrefix(nodes, nodes') && IsPrefix(ks, ks')
    requires FindIn(nodes, ks, id).Some?
    ensures FindIn(nodes', ks', id) == FindIn(nodes, ks, id)
    decreases |ks|
  {
    assert ks'[0] == ks[0] && nodes'[ks[0]] == nodes[ks[0]];
    if nodes[ks[0]].id != id {
      assert ks'[1..][..|ks| - 1] == ks[1..];
      FindInStable(nodes, ks[1..], nodes', ks'[1..], id);
    }
  }

  /** A search that fails on `ks` finds the node appended after it, when that node has the id. */
  lemma {:induction false} FindInAppended(nodes: seq<Comment>, ks: seq<nat>, nodes': seq<Comment>, n: nat, id: Uuid)
    requires InArena(nodes, ks) && IsPrefix(nodes, nodes') && n < |nodes'| && nodes'[n].id == id
    requires FindIn(nodes, ks, id).None?
    ensures InArena(nodes', ks + [n]) && FindIn(nodes', ks + [n], id) == Some(n)
    decreases |ks|
  {
    if |ks| > 0 {
      assert nodes'[ks[0]] == nodes[ks[0]];
      assert (ks + [n])[1..] == ks[1..] + [n];
      FindInAppended(nodes, ks[1..], nodes', n, id);
    }
  }

  /** A clone of `c` with no children, appended to the children of `cur`. */
  function AddChild(f: Forest, cur: nat, c: Comment): Forest
    requires cur < |f.kids|
  {
    Forest(f.nodes + [c], f.kids[cur := f.kids[cur] + [|f.nodes|]] + [[]], f.roots)
  }

  /** A clone of `c` with no children, entered in the root map. */
  function AddRoot(f: Forest, c: Comment): Forest {
    Forest(f.nodes + [c], f.kids + [[]], f.roots + [|f.nodes|])
  }

  lemma AddChildValid(f: Forest, cur: nat, c: Comment)
    requires Valid(f) && cur < |f.nodes|
    ensures Valid(AddChild(f, cur, c)) && Extends(f, AddChild(f, cur, c))
  {
    var g := AddChild(f, cur, c);
    forall i | 0 <= i < |g.kids| ensures Above(g.kids[i], i, |g.nodes|) {
      if i < |f.kids| {
        assert Above(f.kids[i], i, |f.nodes|);
      }
    }
    forall i | 0 <= i < |f.kids| ensures IsPrefix(f.kids[i], g.kids[i]) {
      assert g.kids[i][..|f.kids[i]|] == f.kids[i];
    }
    assert g.nodes[..|f.nodes|] == f.nodes;
    assert g.roots[..|f.roots|] == f.roots;
  }

  lemma AddRootValid(f: Forest, c: Comment)
    requires Valid(f)
    ensures Valid(AddRoot(f, c)) && Extends(f, AddRoot(f, c))
  {
    var g := AddRoot(f, c);
    forall i | 0 <= i < |g.kids| ensures Above(g.kids[i], i, |g.nodes|) {
      if i < |f.kids| {
        assert g.kids[i] == f.kids[i] && Above(f.kids[i], i, |f.nodes|);
      }
    }
    forall i | 0 <= i < |f.kids| ensures IsPrefix(f.kids[i], g.kids[i]) {
      assert g.kids[i] == f.kids[i];
      assert g.kids[i][..|f.kids[i]|] == f.kids[i];
    }
    assert g.nodes[..|f.nodes|] == f.nodes;
    assert g.roots[..|f.roots|] == f.roots;
  }

  /**
   * One step down a chain from node `cur`: the first child with the id of
   * `c`, or else a new clone of `c`.
   */
  function Step(f: Forest, cur: nat, c: Comment): (r: (Forest, nat))
    requires Valid(f) && cur < |f.nodes|
    ensures Valid(r.0) && r.1 < |r.0.nodes|
  {
    assert Above(f.kids[cur], cur, |f.nodes|);
    match FindIn(f.nodes, f.kids[cur], c.id)
    case Some(n) => (f, n)
    case None => AddChildValid(f, cur, c); (AddChild(f, cur, c), |f.nodes|)
  }

  /** The step leads to a child of `cur` with the id of `c`, and only grows the forest. */
  lemma StepFacts(f: Forest, cur: nat, c: Comment)
    requires Valid(f) && cur < |f.nodes|
    ensures var r := Step(f, cur, c);
      Extends(f, r.0) && r.0.roots == f.roots && (r.0.nodes == f.nodes || r.0.nodes == f.nodes + [c]) &&
      InArena(r.0.nodes, r.0.kids[cur]) && FindIn(r.0.nodes, r.0.kids[cur], c.id) == Some(r.1)
  {
    assert Above(f.kids[cur], cur, |f.nodes|);
    var r := Step(f, cur, c);
    assert Above(r.0.kids[cur], cur, |r.0.nodes|);
    if FindIn(f.nodes, f.kids[cur], c.id).Some? {
      ExtendsReflexive(f);
    } else {
      AddChildValid(f, cur, c);
      assert r.0.nodes[|f.nodes|] == c;
      FindInAppended(f.nodes, f.kids[cur], r.0.nodes, |f.nodes|, c.id);
    }
  }

  /** The root map's `computeIfAbsent`: the root node with the id of `c`, or a new one. */
  function RootStep(f: Forest, c: Comment): (r: (Forest, nat))
    requires Valid(f)
    ensures Valid(r.0) && r.1 < |r.0.nodes|
  {
    match FindIn(f.nodes, f.roots, c.id)
    case Some(n) => (f, n)
    case None => AddRootValid(f, c); (AddRoot(f, c), |f.nodes|)
  }

  lemma RootStepFacts(f: Forest, c: Comment)
    requires Valid(f)
    ensures var r := RootStep(f, c);
      Extends(f, r.0) && (r.0.nodes == f.nodes || r.0.nodes == f.nodes + [c]) &&
      FindIn(r.0.nodes, r.0.roots, c.id) == Some(r.1)
  {
    var r := RootStep(f, c);
    if FindIn(f.nodes, f.roots, c.id).Some? {
      ExtendsReflexive(f);
    } else {
      AddRootValid(f, c);
      assert r.0.nodes[|f.nodes|] == c;
      FindInAppended(f.nodes, f.roots, r.0.nodes, |f.nodes|, c.id);
    }
  }

  /** The steps for `chain[i..]`, starting from node `cur`. */
  function Descend(f: Forest, cur: nat, chain: seq<Comment>, i: nat): (g: Forest)
    requires Valid(f) && cur < |f.nodes| && i <= |chain|
    ensures Valid(g)
    decreases |chain| - i
  {
    if i == |chain| then f
    else
      var r := Step(f, cur, chain[i]);
      Descend(r.0, r.1, chain, i + 1)
  }

  lemma {:induction false} DescendExtends(f: Forest, cur: nat, chain: seq<Comment>, i: nat)
    requires Valid(f) && cur < |f.nodes| && i <= |chain|
    ensures Extends(f, Descend(f, cur, chain, i)) && Descend(f, cur, chain, i).roots == f.roots
    decreases |chain| - i
  {
    if i == |chain| {
      ExtendsReflexive(f);
    } else {
      var r := Step(f, cur, chain[i]);
      StepFacts(f, cur, chain[i]);
      DescendExtends(r.0, r.1, chain, i + 1);
      ExtendsTransitive(f, r.0, Descend(f, cur, chain, i));
    }
  }

  /** One thread's chain merged into the forest. */
  function InsertChain(f: Forest, chain: seq<Comment>): (g: Forest)
    requires Valid(f) && |chain| > 0
    ensures Valid(g)
  {
    var r := RootStep(f, chain[0]);
    Descend(r.0, r.1, chain, 1)
  }

  lemma InsertChainExtends(f: Forest, chain: seq<Comment>)
    requires Valid(f) && |chain| > 0
    ensures Extends(f, InsertChain(f, chain))
  {
    var r := RootStep(f, chain[0]);
    RootStepFacts(f, chain[0]);
    DescendExtends(r.0, r.1, chain, 1);
    ExtendsTransitive(f, r.0, InsertChain(f, chain));
  }

  /** The forest for the threads, merged in order. */
  function MergeAll(ts: seq<Thread>): (f: Forest)
    ensures Valid(f)
    decreases |ts|
  {
    if |ts| == 0 then Empty else InsertChain(MergeAll(ts[..|ts| - 1]), Chain(ts[|ts| - 1]))
  }

  /**
   * One thread merged in place: the root map's `computeIfAbsent` for the
   * chain's first comment, then the walk down the rest of the chain.
   */
  method InsertThread(nodes0: seq<Comment>, kids0: seq<seq<nat>>, roots0: seq<nat>, chain: seq<Comment>)
    returns (nodes: seq<Comment>, kids: seq<seq<nat>>, roots: seq<nat>)
    requires Valid(Forest(nodes0, kids0, roots0)) && |chain| > 0
    ensures Forest(nodes, kids, roots) == InsertChain(Forest(nodes0, kids0, roots0), chain)
  {
    ghost var before := Forest(nodes0, kids0, roots0);
    nodes, kids, roots := nodes0, kids0, roots0;
    var root := chain[0];
    var current: nat;
    var found := FindIn(nodes, roots, root.id);
    if found.Some? {
      current := found.value;
    } else {
      current := |nodes|;
      nodes := nodes + [root];
      kids := kids + [[]];
      roots := roots + [current];
      assert Forest(nodes, kids, roots) == AddRoot(before, root);
    }
    assert (Forest(nodes, kids, roots), current) == RootStep(before, root);
    for i := 1 to |chain|
      invariant Valid(Forest(nodes, kids, roots)) && current < |nodes|
      invariant Descend(Forest(nodes, kids, roots), current, chain, i) == InsertChain(before, chain)
    {
      ghost var here, from := Forest(nodes, kids, roots), current;
      var next := chain[i];
      assert Above(kids[current], current, |nodes|);
      var existing := FindIn(nodes, kids[current], next.id);
      if existing.Some? {
        current := existing.value;
      } else {
        var newChild := |nodes|;
        nodes := nodes + [next];
        kids := kids[current := kids[current] + [newChild]] + [[]];
        assert Forest(nodes, kids, roots) == AddChild(here, from, next);
        current := newChild;
      }
      assert (Forest(nodes, kids, roots), current) == Step(here, from, next);
    }
  }

  /**
   * The merge loop of the user-specific listing: every thread's chain is
   * merged into the root map and the children lists, and the ids of every
   * chain are collected.
   */
  method MergeThreads(threads: seq<Thread>) returns (f: Forest, members: set<Uuid>)
    ensures f == MergeAll(threads)
    ensures members == MemberIds(threads)
  {
    var nodes: seq<Comment> := [];
    var kids: seq<seq<nat>> := [];
    var roots: seq<nat> := [];
    members := {};
    for k := 0 to |threads|
      invariant Forest(nodes, kids, roots) == MergeAll(threads[..k])
      invariant members == MemberIds(threads[..k])
    {
      assert threads[..k + 1][..k] == threads[..k];
      var chain := threads[k].context + [threads[k].target];
      assert chain == Chain(threads[..k + 1][k]);
      nodes, kids, roots := InsertThread(nodes, kids, roots, chain);
      members := members + Ids(chain);
    }
    assert threads[..|threads|] == threads;
    f := Forest(nodes, kids, roots);
  }

  // What the merge guarantees.

  /** Following the ids of `chain` down from the nodes `ks`: the node the last one leads to. */
  function Walk(f: Forest, ks: seq<nat>, chain: seq<Comment>): (r: Option<nat>)
    requires Valid(f) && InArena(f.nodes, ks)
    ensures r.Some? ==> |chain| > 0 && r.value < |f.nodes| && f.nodes[r.value].id == chain[|chain| - 1].id
    decreases |chain|
  {
    if |chain| == 0 then None
    else match FindIn(f.nodes, ks, chain[0].id)
      case None => None
      case Some(n) => if |chain| == 1 then Some(n) else Walk(f, f.kids[n], chain[1..])
  }

  /** A path that exists keeps leading to the same node as the forest grows. */
  lemma {:induction false} WalkStable(f: Forest, ks: seq<nat>, g: Forest, ks': seq<nat>, chain: seq<Comment>)
    requires Valid(f) && Valid(g) && Extends(f, g) && InArena(f.nodes, ks) && InArena(g.nodes, ks') && IsPrefix(ks, ks')
    requires Walk(f, ks, chain).Some?
    ensures Walk(g, ks', chain) == Walk(f, ks, chain)
    decreases |chain|
  {
    FindInStable(f.nodes, ks, g.nodes, ks', chain[0].id);
    if |chain| > 1 {
      var n := FindIn(f.nodes, ks, chain[0].id).value;
      assert Above(f.kids[n], n, |f.nodes|) && Above(g.kids[n], n, |g.nodes|);
      WalkStable(f, f.kids[n], g, g.kids[n], chain[1..]);
    }
  }

  /** After descending with `chain[i..]` from `cur`, that rest of the chain is a path below `cur`. */
  lemma {:induction false} DescendLocates(f: Forest, cur: nat, chain: seq<Comment>, i: nat)
    requires Valid(f) && cur < |f.nodes| && i < |chain|
    ensures var h := Descend(f, cur, chain, i);
      cur < |h.kids| && InArena(h.nodes, h.kids[cur]) && Walk(h, h.kids[cur], chain[i..]).Some?
    decreases |chain| - i
  {
    var r := Step(f, cur, chain[i]);
    var h := Descend(f, cur, chain, i);
    assert h == Descend(r.0, r.1, chain, i + 1);
    StepFacts(f, cur, chain[i]);
    DescendExtends(r.0, r.1, chain, i + 1);
    assert Above(h.kids[cur], cur, |h.nodes|);
    FindInStable(r.0.nodes, r.0.kids[cur], h.nodes, h.kids[cur], chain[i].id);
    assert chain[i..][0] == chain[i];
    if i + 1 < |chain| {
      DescendLocates(r.0, r.1, chain, i + 1);
      assert chain[i..][1..] == chain[i + 1..];
    }
  }

  /** After inserting a chain, the chain is a path from a root. */
  lemma InsertChainLocates(f: Forest, chain: seq<Comment>)
    requires Valid(f) && |chain| > 0
    ensures Walk(InsertChain(f, chain), InsertChain(f, chain).roots, chain).Some?
  {
    var r := RootStep(f, chain[0]);
    var g := InsertChain(f, chain);
    RootStepFacts(f, chain[0]);
    DescendExtends(r.0, r.1, chain, 1);
    assert g.roots[..|g.roots|] == g.roots;
    FindInStable(r.0.nodes, r.0.roots, g.nodes, g.roots, chain[0].id);
    if |chain| > 1 {
      DescendLocates(r.0, r.1, chain, 1);
      assert chain[1..] == chain[1..];
    }
  }

  lemma {:induction false} MergeAllExtends(ts: seq<Thread>, k: nat)
    requires k <= |ts|
    ensures Extends(MergeAll(ts[..k]), MergeAll(ts))
    decreases |ts|
  {
    if k == |ts| {
      assert ts[..k] == ts;
      ExtendsReflexive(MergeAll(ts));
    } else {
      var ts' := ts[..|ts| - 1];
      MergeAllExtends(ts', k);
      assert ts'[..k] == ts[..k];
      InsertChainExtends(MergeAll(ts'), Chain(ts[|ts| - 1]));
      ExtendsTransitive(MergeAll(ts[..k]), MergeAll(ts'), MergeAll(ts));
    }
  }

  /**
   * Every thread survives the merge: its chain, root first and target last,
   * is a path of ids from a root of the merged forest.
   */
  lemma EveryThreadLocated(ts: seq<Thread>, k: nat)
    requires k < |ts|
    ensures Walk(MergeAll(ts), MergeAll(ts).roots, Chain(ts[k])).Some?
  {
    var f := MergeAll(ts[..k]);
    assert ts[..k + 1][..k] == ts[..k];
    var g := MergeAll(ts[..k + 1]);
    InsertChainLocates(f, Chain(ts[k]));
    MergeAllExtends(ts, k + 1);
    WalkStable(g, g.roots, MergeAll(ts), MergeAll(ts).roots, Chain(ts[k]));
  }

  /** No two nodes of one list (the roots, or a node's children) carry the same id. */
  predicate DistinctIds(nodes: seq<Comment>, ks: seq<nat>)
    requires InArena(nodes, ks)
  {
    forall a, b :: 0 <= a < b < |ks| ==> nodes[ks[a]].id != nodes[ks[b]].id
  }

  predicate Unique(f: Forest)
    requires Valid(f)
  {
    DistinctIds(f.nodes, f.roots) &&
    forall i :: 0 <= i < |f.kids| ==> Above(f.kids[i], i, |f.nodes|) && DistinctIds(f.nodes, f.kids[i])
  }

  lemma DistinctIdsAppend(nodes: seq<Comment>, ks: seq<nat>, nodes': seq<Comment>, n: nat)
    requires InArena(nodes, ks) && IsPrefix(nodes, nodes') && n < |nodes'|
    requires DistinctIds(nodes, ks) && FindIn(nodes, ks, nodes'[n].id).None?
    ensures InArena(nodes', ks + [n]) && DistinctIds(nodes', ks + [n])
  {
    forall j | 0 <= j < |ks| ensures nodes'[ks[j]] == nodes[ks[j]] {}
  }

  lemma DistinctIdsGrow(nodes: seq<Comment>, ks: seq<nat>, nodes': seq<Comment>)
    requires InArena(nodes, ks) && IsPrefix(nodes, nodes') && DistinctIds(nodes, ks)
    ensures InArena(nodes', ks) && DistinctIds(nodes', ks)
  {
    forall j | 0 <= j < |ks| ensures nodes'[ks[j]] == nodes[ks[j]] {}
  }

  lemma StepUnique(f: Forest, cur: nat, c: Comment)
    requires Valid(f) && cur < |f.nodes| && Unique(f)
    ensures Unique(Step(f, cur, c).0)
  {
    assert Above(f.kids[cur], cur, |f.nodes|);
    if FindIn(f.nodes, f.kids[cur], c.id).None? {
      var g := AddChild(f, cur, c);
      assert Step(f, cur, c).0 == g;
      AddChildValid(f, cur, c);
      DistinctIdsGrow(f.nodes, f.roots, g.nodes);
      forall i | 0 <= i < |g.kids| ensures Above(g.kids[i], i, |g.nodes|) && DistinctIds(g.nodes, g.kids[i]) {
        if i == cur {
          assert g.nodes[|f.nodes|] == c;
          DistinctIdsAppend(f.nodes, f.kids[cur], g.nodes, |f.nodes|);
        } else if i < |f.kids| {
          DistinctIdsGrow(f.nodes, f.kids[i], g.nodes);
        }
      }
    }
  }

  lemma RootStepUnique(f: Forest, c: Comment)
    requires Valid(f) && Unique(f)
    ensures Unique(RootStep(f, c).0)
  {
    if FindIn(f.nodes, f.roots, c.id).None? {
      var g := AddRoot(f, c);
      assert RootStep(f, c).0 == g;
      AddRootValid(f, c);
      assert g.nodes[|f.nodes|] == c;
      DistinctIdsAppend(f.nodes, f.roots, g.nodes, |f.nodes|);
      forall i | 0 <= i < |g.kids| ensures Above(g.kids[i], i, |g.nodes|) && DistinctIds(g.nodes, g.kids[i]) {
        if i < |f.kids| {
          assert g.kids[i] == f.kids[i];
          DistinctIdsGrow(f.nodes, f.kids[i], g.nodes);
        }
      }
    }
  }

  lemma {:induction false} DescendUnique(f: Forest, cur: nat, chain: seq<Comment>, i: nat)
    requires Valid(f) && cur < |f.nodes| && i <= |chain| && Unique(f)
    ensures Unique(Descend(f, cur, chain, i))
    decreases |chain| - i
  {
    if i < |chain| {
      var r := Step(f, cur, chain[i]);
      StepUnique(f, cur, chain[i]);
      DescendUnique(r.0, r.1, chain, i + 1);
    }
  }

  /**
   * The merge never duplicates a comment among siblings: the roots carry
   * distinct ids, and so do the children of every node.
   */
  lemma {:induction false} MergeAllUnique(ts: seq<Thread>)
    ensures Unique(MergeAll(ts))
    decreases |ts|
  {
    if |ts| > 0 {
      var f := MergeAll(ts[..|ts| - 1]);
      var chain := Chain(ts[|ts| - 1]);
      MergeAllUnique(ts[..|ts| - 1]);
      RootStepUnique(f, chain[0]);
      var r := RootStep(f, chain[0]);
      DescendUnique(r.0, r.1, chain, 1);
    }
  }

  /** The ids of the roots, in the root map's order. */
  function RootIds(f: Forest): (r: seq<Uuid>)
    requires Valid(f)
    ensures |r| == |f.roots|
  {
    seq(|f.roots|, j requires 0 <= j < |f.roots| => f.nodes[f.roots[j]].id)
  }

  lemma RootIdsGrow(f: Forest, g: Forest)
    requires Valid(f) && Valid(g) && IsPrefix(f.nodes, g.nodes) && g.roots == f.roots
    ensures RootIds(g) == RootIds(f)
  {
    forall j | 0 <= j < |f.roots| ensures g.nodes[g.roots[j]] == f.nodes[f.roots[j]] {}
  }

  lemma RootIdsAddRoot(f: Forest, c: Comment)
    requires Valid(f)
    ensures Valid(AddRoot(f, c)) && RootIds(AddRoot(f, c)) == RootIds(f) + [c.id]
  {
    AddRootValid(f, c);
    var g := AddRoot(f, c);
    forall j | 0 <= j < |f.roots| ensures g.nodes[g.roots[j]] == f.nodes[f.roots[j]] {}
    assert g.nodes[|f.nodes|] == c;
  }

  lemma FindInRootIds(f: Forest, id: Uuid)
    requires Valid(f)
    ensures FindIn(f.nodes, f.roots, id).Some? <==> id in RootIds(f)
  {
    if id in RootIds(f) {
      var j :| 0 <= j < |f.roots| && RootIds(f)[j] == id;
      assert f.nodes[f.roots[j]].id == id;
    }
    var found := FindIn(f.nodes, f.roots, id);
    if found.Some? {
      var j :| 0 <= j < |f.roots| && f.roots[j] == found.value;
      assert RootIds(f)[j] == id;
    }
  }

  lemma RootIdsAfterInsert(f: Forest, chain: seq<Comment>)
    requires Valid(f) && |chain| > 0
    ensures RootIds(InsertChain(f, chain)) ==
      RootIds(f) + (if chain[0].id in RootIds(f) then [] else [chain[0].id])
  {
    var r := RootStep(f, chain[0]);
    RootStepFacts(f, chain[0]);
    DescendExtends(r.0, r.1, chain, 1);
    RootIdsGrow(r.0, InsertChain(f, chain));
    FindInRootIds(f, chain[0].id);
    if chain[0].id !in RootIds(f) {
      assert r.0 == AddRoot(f, chain[0]);
      RootIdsAddRoot(f, chain[0]);
    } else {
      assert RootIds(f) + [] == RootIds(f);
    }
  }

  /** The ids of the threads' roots (the first comment of each chain), one per thread. */
  function HeadIds(ts: seq<Thread>): (r: seq<Uuid>)
    ensures |r| == |ts|
  {
    seq(|ts|, k requires 0 <= k < |ts| => Chain(ts[k])[0].id)
  }

  lemma HeadIdsPrefix(ts: seq<Thread>)
    requires |ts| > 0
    ensures HeadIds(ts)[..|ts| - 1] == HeadIds(ts[..|ts| - 1])
    ensures HeadIds(ts)[|ts| - 1] == Chain(ts[|ts| - 1])[0].id
  {
  }

  /** `s` with every element after its first occurrence dropped. */
  function Dedup<T(==)>(s: seq<T>): seq<T>
    decreases |s|
  {
    if |s| == 0 then [] else
      var s' := s[..|s| - 1];
      Dedup(s') + (if s[|s| - 1] in s' then [] else [s[|s| - 1]])
  }

  lemma {:induction false} DedupShorter<T>(s: seq<T>)
    ensures |Dedup(s)| <= |s|
    decreases |s|
  {
    if |s| > 0 {
      DedupShorter(s[..|s| - 1]);
    }
  }

  lemma {:induction false} DedupMembers<T>(s: seq<T>, x: T)
    ensures x in Dedup(s) <==> x in s
    decreases |s|
  {
    if |s| > 0 {
      DedupMembers(s[..|s| - 1], x);
      assert s == s[..|s| - 1] + [s[|s| - 1]];
    }
  }

  /** Adding an element that occurs already leaves the deduplicated list as it is; a new one goes at its end. */
  lemma DedupStep<T>(r': seq<T>, s': seq<T>, x: T, r: seq<T>, s: seq<T>)
    requires r' == Dedup(s') && r == r' + (if x in r' then [] else [x])
    requires |s| > 0 && s[..|s| - 1] == s' && s[|s| - 1] == x
    ensures r == Dedup(s)
  {
    DedupMembers(s', x);
  }

  /**
   * The root map ends up with one entry per distinct root id of the threads,
   * in the order those ids first occur.
   */
  lemma {:induction false} RootsAreDistinctHeads(ts: seq<Thread>)
    ensures RootIds(MergeAll(ts)) == Dedup(HeadIds(ts))
    decreases |ts|
  {
    if |ts| > 0 {
      var ts' := ts[..|ts| - 1];
      RootsAreDistinctHeads(ts');
      var chain := Chain(ts[|ts| - 1]);
      RootIdsAfterInsert(MergeAll(ts'), chain);
      HeadIdsPrefix(ts);
      DedupStep(RootIds(MergeAll(ts')), HeadIds(ts'), chain[0].id, RootIds(MergeAll(ts)), HeadIds(ts));
    }
  }

  /** Every comment of the threads, chain after chain. */
  function Flatten(ts: seq<Thread>): seq<Comment>
    decreases |ts|
  {
    if |ts| == 0 then [] else Flatten(ts[..|ts| - 1]) + Chain(ts[|ts| - 1])
  }

  /** Every node is a clone of a comment of `source`, and there are no more nodes than comments. */
  predicate ClonesOf(f: Forest, source: seq<Comment>) {
    |f.nodes| <= |source| && forall i :: 0 <= i < |f.nodes| ==> f.nodes[i] in source
  }

  lemma ClonesOfGrow(f: Forest, g: Forest, source: seq<Comment>, c: Comment)
    requires ClonesOf(f, source) && (g.nodes == f.nodes || g.nodes == f.nodes + [c])
    ensures ClonesOf(g, source + [c])
  {
  }

  lemma {:induction false} DescendClones(f: Forest, cur: nat, chain: seq<Comment>, i: nat, before: seq<Comment>)
    requires Valid(f) && cur < |f.nodes| && i <= |chain| && ClonesOf(f, before + chain[..i])
    ensures ClonesOf(Descend(f, cur, chain, i), before + chain)
    decreases |chain| - i
  {
    if i == |chain| {
      assert chain[..i] == chain;
    } else {
      var r := Step(f, cur, chain[i]);
      StepFacts(f, cur, chain[i]);
      ClonesOfGrow(f, r.0, before + chain[..i], chain[i]);
      assert (before + chain[..i]) + [chain[i]] == before + chain[..i + 1];
      DescendClones(r.0, r.1, chain, i + 1, before);
    }
  }

  /** The merge only creates clones of the threads' comments, at most one per comment. */
  lemma {:induction false} MergeAllClones(ts: seq<Thread>)
    ensures ClonesOf(MergeAll(ts), Flatten(ts))
    decreases |ts|
  {
    if |ts| > 0 {
      var ts' := ts[..|ts| - 1];
      var f := MergeAll(ts');
      var chain := Chain(ts[|ts| - 1]);
      MergeAllClones(ts');
      var r := RootStep(f, chain[0]);
      RootStepFacts(f, chain[0]);
      ClonesOfGrow(f, r.0, Flatten(ts'), chain[0]);
      assert chain[..1] == [chain[0]];
      DescendClones(r.0, r.1, chain, 1, Flatten(ts'));
    }
  }

  // The listing built from the forest.

  /** A node with its subtree, as the listing returns it. */
  function ToNode(f: Forest, i: nat): CommentNode
    requires Valid(f) && i < |f.nodes|
    decreases |f.nodes| - i
  {
    CommentNode(f.nodes[i], seq(|f.kids[i]|, j requires 0 <= j < |f.kids[i]| => ToNode(f, f.kids[i][j])))
  }

  function RootNodes(f: Forest): (r: seq<CommentNode>)
    requires Valid(f)
    ensures |r| == |f.roots|
    ensures forall j :: 0 <= j < |f.roots| ==> r[j].comment == f.nodes[f.roots[j]]
  {
    seq(|f.roots|, j requires 0 <= j < |f.roots| => ToNode(f, f.roots[j]))
  }

  /** The condition on the application's own comments: root comments outside every thread. */
  function IsOther(members: set<Uuid>): Comment -> bool {
    (c: Comment) => c.level == 0 && c.id !in members
  }

  /** The merged roots followed by the other root comments of the application's page, each without children. */
  function MergedListing(f: Forest, others: seq<Comment>): (r: seq<CommentNode>)
    requires Valid(f)
    ensures |r| == |f.roots| + |others|
    ensures forall j :: 0 <= j < |others| ==> r[|f.roots| + j] == CommentNode(others[j], [])
    ensures forall j :: 0 <= j < |f.roots| ==> r[j].comment == f.nodes[f.roots[j]]
  {
    RootNodes(f) + seq(|others|, j requires 0 <= j < |others| => CommentNode(others[j], []))
  }

  /** A root of the merge carries the id of a thread member. */
  lemma RootsAreMembers(ts: seq<Thread>, j: nat)
    requires j < |MergeAll(ts).roots|
    ensures RootIds(MergeAll(ts))[j] in MemberIds(ts)
  {
    RootsAreDistinctHeads(ts);
    var id := RootIds(MergeAll(ts))[j];
    DedupMembers(HeadIds(ts), id);
    var k :| 0 <= k < |ts| && HeadIds(ts)[k] == id;
    MemberIdsExactly(ts, id);
    assert Chain(ts[k])[0] in Chain(ts[k]);
  }

  /**
   * The other comments are exactly the level-0 comments of the page outside
   * the threads, so none of them repeats a merged root.
   */
  lemma OthersExactly(ts: seq<Thread>, page: seq<Comment>, c: Comment)
    ensures c in Filter(page, IsOther(MemberIds(ts))) <==> c in page && c.level == 0 && c.id !in MemberIds(ts)
    ensures c in Filter(page, IsOther(MemberIds(ts))) ==> c.id !in RootIds(MergeAll(ts))
  {
    FilterMembers(page, IsOther(MemberIds(ts)), c);
    if c.id in RootIds(MergeAll(ts)) {
      var j :| 0 <= j < |MergeAll(ts).roots| && RootIds(MergeAll(ts))[j] == c.id;
      RootsAreMembers(ts, j);
    }
  }
}
