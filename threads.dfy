/**
 * The thread view of a user's comments: for each of the user's comments on
 * a page, the chain of its ancestors from the root down to its parent,
 * rebuilt from the pool the ancestor query returns.
 */
module Threads {
  import opened Wrappers
  import opened Text
  import opened CommentModel
  import opened CommentStore

  /**
   * The map `buildLineageMap(targets, pool)` fills, target after target:
   * each target's id mapped to the lineage of its parent in the lookup.
   */
  function LineageMap(lookup: Store, targets: seq<Comment>): map<Uuid, seq<Comment>>
    requires Ranked(lookup)
    decreases |targets|
  {
    if |targets| == 0 then map[]
    else
      var t := targets[|targets| - 1];
      LineageMap(lookup, targets[..|targets| - 1])[t.id := Lineage(lookup, t.parentId)]
  }

  /**
   * Builds the lookup from the pool, then walks up from each target's
   * parent while the parent is in the lookup, putting each parent in front
   * of the chain. The walk terminates because levels fall along parent
   * links in the lookup.
   */
  method BuildLineageMap(targets: seq<Comment>, pool: seq<Comment>) returns (result: map<Uuid, seq<Comment>>)
    requires Ranked(PoolMap(pool))
    ensures result == LineageMap(PoolMap(pool), targets)
  {
    var lookup := PoolMap(pool);
    result := map[];
    for k := 0 to |targets|
      invariant result == LineageMap(lookup, targets[..k])
    {
      var target := targets[k];
      var chain: seq<Comment> := [];
      var currentParentId := target.parentId;
      while currentParentId.Some? && currentParentId.value in lookup
        invariant Lineage(lookup, currentParentId) + chain == Lineage(lookup, target.parentId)
        decreases Rank(lookup, currentParentId)
      {
        var parent := lookup[currentParentId.value];
        assert Lineage(lookup, currentParentId) == Lineage(lookup, parent.parentId) + [parent];
        chain := [parent] + chain;
        currentParentId := parent.parentId;
      }
      assert Lineage(lookup, currentParentId) == [];
      assert chain == Lineage(lookup, target.parentId);
      assert targets[..k + 1][..k] == targets[..k] && targets[..k + 1][k] == target;
      result := result[target.id := chain];
    }
    assert targets[..|targets|] == targets;
  }

  /** Records that share an id are the same record (as rows of one table are). */
  predicate SameIdSameRecord(cs: seq<Comment>) {
    forall i, j :: 0 <= i < |cs| && 0 <= j < |cs| && cs[i].id == cs[j].id ==> cs[i] == cs[j]
  }

  /** Each target's id is mapped to the lineage of that target's parent. */
  lemma {:induction false} LineageMapLookup(lookup: Store, targets: seq<Comment>, k: nat)
    requires Ranked(lookup) && SameIdSameRecord(targets) && k < |targets|
    ensures targets[k].id in LineageMap(lookup, targets)
    ensures LineageMap(lookup, targets)[targets[k].id] == Lineage(lookup, targets[k].parentId)
    decreases |targets|
  {
    var n := |targets| - 1;
    if k < n && targets[n].id != targets[k].id {
      var targets' := targets[..n];
      assert targets'[k] == targets[k];
      LineageMapLookup(lookup, targets', k);
    }
  }

  /** The lineage map has a key for the targets' ids and no other. */
  lemma {:induction false} LineageMapKeys(lookup: Store, targets: seq<Comment>, id: Uuid)
    requires Ranked(lookup)
    ensures id in LineageMap(lookup, targets) <==> exists k :: 0 <= k < |targets| && targets[k].id == id
    decreases |targets|
  {
    if |targets| > 0 {
      var targets' := targets[..|targets| - 1];
      LineageMapKeys(lookup, targets', id);
      if exists k :: 0 <= k < |targets'| && targets'[k].id == id {
        var k :| 0 <= k < |targets'| && targets'[k].id == id;
        assert targets[k] == targets'[k];
      }
    }
  }

  /** The ids of comments, in order. */
  function IdList(cs: seq<Comment>): (r: seq<Uuid>)
    ensures |r| == |cs|
    ensures forall k :: 0 <= k < |cs| ==> r[k] == cs[k].id
  {
    seq(|cs|, k requires 0 <= k < |cs| => cs[k].id)
  }

  function HasParent(): Comment -> bool {
    (c: Comment) => c.parentId.Some?
  }

  /** The ids whose ancestors are fetched: those of the targets that have a parent. */
  function NestedIds(targets: seq<Comment>): seq<Uuid> {
    IdList(Filter(targets, HasParent()))
  }

  /** The threads the service builds from the lineage map (a missing entry reads as the empty chain). */
  function ThreadsFrom(targets: seq<Comment>, lineageMap: map<Uuid, seq<Comment>>): (ts: seq<Thread>)
    ensures |ts| == |targets|
    ensures forall k :: 0 <= k < |targets| ==> ts[k].target == targets[k]
  {
    seq(|targets|, k requires 0 <= k < |targets| =>
      Thread(targets[k], if targets[k].id in lineageMap then lineageMap[targets[k].id] else []))
  }

  /** The threads of the targets as the store defines them: each target with the lineage of its parent. */
  function ThreadsOf(m: Store, targets: seq<Comment>): (ts: seq<Thread>)
    requires Ranked(m)
    ensures |ts| == |targets|
  {
    seq(|targets|, k requires 0 <= k < |targets| => Thread(targets[k], Lineage(m, targets[k].parentId)))
  }

  /** A thread's context is its target's ancestry: root first, each the parent of the next, ending at the parent. */
  lemma ThreadContextShape(m: Store, targets: seq<Comment>, k: nat)
    requires Ranked(m) && k < |targets|
    ensures var t := ThreadsOf(m, targets)[k];
      var ctx := t.context;
      t.target == targets[k] &&
      (forall i :: 0 <= i < |ctx| ==> ctx[i].id in m && m[ctx[i].id] == ctx[i]) &&
      (forall i :: 0 <= i < |ctx| - 1 ==> ctx[i + 1].parentId == Some(ctx[i].id)) &&
      (|ctx| > 0 ==> targets[k].parentId == Some(ctx[|ctx| - 1].id)) &&
      (|ctx| == 0 <==> targets[k].parentId.None? || targets[k].parentId.value !in m)
  {
    LineageShape(m, targets[k].parentId);
  }

  /**
   * Rebuilding the chains from the ancestor query's pool yields, for targets
   * that are stored records, exactly the ancestry the store holds: the walk
   * over the pool loses no ancestor and adds none.
   */
  lemma ThreadsFromPool(m: Store, targets: seq<Comment>)
    requires Ranked(m)
    requires forall k :: 0 <= k < |targets| ==> targets[k].id in m && m[targets[k].id] == targets[k]
    ensures Ranked(PoolMap(AncestorPool(m, NestedIds(targets))))
    ensures ThreadsFrom(targets, LineageMap(PoolMap(AncestorPool(m, NestedIds(targets))), targets)) == ThreadsOf(m, targets)
  {
    var ids := NestedIds(targets);
    var pool := AncestorPool(m, ids);
    forall c | c in pool ensures c.id in m && m[c.id] == c {
      AncestorPoolStored(m, ids, c);
    }
    PoolMapIsPart(pool, m);
    SubStoreRanked(PoolMap(pool), m);
    var lookup := PoolMap(pool);
    var lm := LineageMap(lookup, targets);
    forall k | 0 <= k < |targets|
      ensures ThreadsFrom(targets, lm)[k] == ThreadsOf(m, targets)[k]
    {
      var t := targets[k];
      LineageMapLookup(lookup, targets, k);
      if t.parentId.Some? {
        FilterMembers(targets, HasParent(), t);
        var nested := Filter(targets, HasParent());
        var j :| 0 <= j < |nested| && nested[j] == t;
        FilterMembers(targets, HasParent(), nested[j]);
        assert ids[j] == t.id;
        PoolLineage(m, ids, j);
      }
    }
  }
}
