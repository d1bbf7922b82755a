/**
 * The comment table as the engine sees it: a map from id to record, the
 * repository object that reads and writes it, the derived listing queries
 * with their paging, and the ancestry of a comment along parent links (the
 * recursive ancestor query and the chains rebuilt from it).
 *
 * The order in which the database returns rows is not specified by the
 * queries; listings take it as a parameter `order`, any enumeration of the
 * stored ids.
 */
module CommentStore {
  import opened Wrappers
  import opened Text
  import opened CommentModel

  type Store = map<Uuid, Comment>

  /** Every record is stored under its own id. */
  predicate WellKeyed(rows: Store) {
    forall id :: id in rows ==> rows[id].id == id
  }

  /** `order` lists every stored id exactly once. */
  predicate Enumerates(rows: Store, order: seq<Uuid>) {
    (forall i, j :: 0 <= i < j < |order| ==> order[i] != order[j]) &&
    (forall id :: id in order ==> id in rows) && (forall id :: id in rows ==> id in order)
  }

  /** The stored records, in the order the database returns them. */
  function Rows(rows: Store, order: seq<Uuid>): (r: seq<Comment>)
    requires forall id :: id in order ==> id in rows
    ensures |r| == |order|
    ensures forall i :: 0 <= i < |order| ==> r[i] == rows[order[i]]
  {
    seq(|order|, i requires 0 <= i < |order| => rows[order[i]])
  }

  /** A listing holds each stored record once, and nothing else. */
  lemma RowsExactly(rows: Store, order: seq<Uuid>, c: Comment)
    requires WellKeyed(rows) && Enumerates(rows, order)
    ensures c in Rows(rows, order) <==> c.id in rows && rows[c.id] == c
  {
    var r := Rows(rows, order);
    if c.id in rows && rows[c.id] == c {
      var i :| 0 <= i < |order| && order[i] == c.id;
      assert r[i] == c;
    }
  }

  lemma RowsDistinct(rows: Store, order: seq<Uuid>)
    requires WellKeyed(rows) && Enumerates(rows, order)
    ensures forall i, j :: 0 <= i < j < |order| ==> Rows(rows, order)[i].id != Rows(rows, order)[j].id
  {
  }

  /**
   * The content of the requested page of `s`: everything when unpaged, and
   * otherwise the elements from the page's offset (a `long`) up to
   * offset + size, cut off at the end of `s`.
   */
  function Slice<T>(s: seq<T>, p: Pageable): (r: seq<T>)
    ensures |r| <= |s|
    ensures p.Unpaged? ==> r == s
    ensures p.Paged? ==> |r| <= p.pageSize && (|r| > 0 <==> Offset(p) < |s|)
    ensures p.Paged? && Offset(p) < |s| ==> r[0] == s[Offset(p)]
  {
    match p
    case Unpaged => s
    case Paged(_, z) =>
      var lo := Min(Offset(p), |s|);
      s[lo..Min(lo + z, |s|)]
  }

  lemma SliceAllMembers<T>(s: seq<T>, p: Pageable)
    ensures forall x :: x in Slice(s, p) ==> x in s
  {
    forall x | x in Slice(s, p) ensures x in s {
      SliceMembers(s, p, x);
    }
  }

  /** An element of a page is an element of the listing. */
  lemma SliceMembers<T>(s: seq<T>, p: Pageable, x: T)
    requires x in Slice(s, p)
    ensures x in s
  {
    if p.Paged? {
      var lo := Min(Offset(p), |s|);
      var i :| 0 <= i < |Slice(s, p)| && Slice(s, p)[i] == x;
      assert s[lo + i] == x;
    }
  }

  /**
   * A derived paged query: the page of the matches, with the number of
   * matches as total (what the paging support computes, with or without its
   * count query, for a listing that does not change meanwhile).
   */
  function Query(matches: seq<Comment>, p: Pageable): (r: Page<Comment>)
    ensures r.pageable == p && r.total == |matches|
    ensures forall c :: c in r.content ==> c in matches
    ensures p.Unpaged? ==> r.content == matches
    ensures p.Paged? ==> |r.content| <= p.pageSize && (|r.content| > 0 <==> Offset(p) < |matches|)
    ensures PageImplTotal(|r.content|, p, r.total) == r.total
  {
    SliceAllMembers(matches, p);
    Page(Slice(matches, p), p, |matches|)
  }

  /** The total a page object reports: the given one, unless a non-empty page reaches past it. */
  function PageImplTotal(contentLength: nat, p: Pageable, total: int): (r: int)
    ensures p.Unpaged? || contentLength == 0 ==> r == total
  {
    if p.Paged? && contentLength > 0 && Offset(p) + p.pageSize > total then Offset(p) + contentLength else total
  }

  // The conditions of the derived queries. A null argument compares as IS NULL.

  function InApplication(a: Uuid): Comment -> bool {
    (c: Comment) => c.applicationId == a
  }

  function InApplicationByParent(a: Uuid, parentId: Option<Uuid>): Comment -> bool {
    (c: Comment) => c.applicationId == a && c.parentId == parentId
  }

  function InApplicationByParentAndSentiment(a: Uuid, parentId: Option<Uuid>, sentiment: int): Comment -> bool {
    (c: Comment) => c.applicationId == a && c.parentId == parentId && c.sentiment.Some? && c.sentiment.value == sentiment
  }

  function InApplicationByUser(a: Uuid, u: Uuid): Comment -> bool {
    (c: Comment) => c.applicationId == a && c.userId == u
  }

  function InApplicationByUserAndSentiment(a: Uuid, u: Uuid, sentiment: int): Comment -> bool {
    (c: Comment) => c.applicationId == a && c.userId == u && c.sentiment.Some? && c.sentiment.value == sentiment
  }

  /** The repository object: one row per id; the other queries are the functions above. */
  class CommentRepository {
    var rows: Store

    /** Rows are keyed by their own id, as the table's primary key makes them. */
    predicate Valid()
      reads this
    {
      WellKeyed(rows)
    }

    constructor()
      ensures rows == map[] && Valid()
    {
      rows := map[];
    }

    method FindById(id: Uuid) returns (r: Option<Comment>)
      ensures r.Some? <==> id in rows
      ensures r.Some? ==> r.value == rows[id]
    {
      r := if id in rows then Some(rows[id]) else None;
    }

    /** Inserts the record, or replaces the one stored under the same id. */
    method Save(c: Comment)
      modifies this
      ensures rows == old(rows)[c.id := c]
    {
      rows := rows[c.id := c];
    }

    /** Removes the record with this id; an unknown id is ignored. */
    method DeleteById(id: Uuid)
      modifies this
      ensures rows == old(rows) - {id}
    {
      rows := rows - {id};
    }
  }

  // Ancestry along parent links.

  /**
   * Levels are consistent with parent links: a stored parent of a stored
   * comment has a smaller level. This is what rules out cycles of parent
   * links, on which the chain reconstruction would not terminate.
   */
  predicate Ranked(m: Store) {
    forall id :: id in m ==>
      m[id].id == id && m[id].level >= 0 &&
      (m[id].parentId.Some? && m[id].parentId.value in m ==> m[m[id].parentId.value].level < m[id].level)
  }

  function Rank(m: Store, pid: Option<Uuid>): nat
    requires Ranked(m)
  {
    if pid.Some? && pid.value in m then m[pid.value].level + 1 else 0
  }

  /**
   * The chain of stored comments from the topmost reachable ancestor down to
   * the comment `pid` names, following parent links while the parent is
   * stored.
   */
  function Lineage(m: Store, pid: Option<Uuid>): seq<Comment>
    requires Ranked(m)
    decreases Rank(m, pid)
  {
    if pid.Some? && pid.value in m then Lineage(m, m[pid.value].parentId) + [m[pid.value]] else []
  }

  /**
   * The shape of a lineage: its members are stored records; each is the
   * parent of the next; the last is the comment `pid` names; it is empty
   * exactly when that comment is not stored; and its first member's parent
   * is not stored (the walk stops there).
   */
  lemma {:induction false} LineageShape(m: Store, pid: Option<Uuid>)
    requires Ranked(m)
    ensures var l := Lineage(m, pid);
      (forall i :: 0 <= i < |l| ==> l[i].id in m && m[l[i].id] == l[i]) &&
      (forall i :: 0 <= i < |l| - 1 ==> l[i + 1].parentId == Some(l[i].id)) &&
      (|l| == 0 <==> pid.None? || pid.value !in m) &&
      (|l| > 0 ==> pid == Some(l[|l| - 1].id)) &&
      (|l| > 0 ==> l[0].parentId.None? || l[0].parentId.value !in m)
    decreases Rank(m, pid)
  {
    if pid.Some? && pid.value in m {
      var c := m[pid.value];
      LineageShape(m, c.parentId);
      var l' := Lineage(m, c.parentId);
      var l := l' + [c];
      assert |l'| > 0 ==> c.parentId == Some(l'[|l'| - 1].id);
      assert forall i :: 0 <= i < |l'| ==> l[i] == l'[i];
    }
  }

  /** Levels increase strictly down a lineage. */
  lemma {:induction false} LineageLevels(m: Store, pid: Option<Uuid>)
    requires Ranked(m)
    ensures var l := Lineage(m, pid);
      forall i :: 0 <= i < |l| - 1 ==> l[i].level < l[i + 1].level
    decreases Rank(m, pid)
  {
    if pid.Some? && pid.value in m {
      var c := m[pid.value];
      LineageLevels(m, c.parentId);
      LineageShape(m, c.parentId);
      var l' := Lineage(m, c.parentId);
      var l := l' + [c];
      assert forall i :: 0 <= i < |l'| ==> l[i] == l'[i];
    }
  }

  /** `s` is part of `m`: every key of `s` is a key of `m` with the same record. */
  predicate SubStore(s: Store, m: Store) {
    forall id :: id in s ==> id in m && s[id] == m[id]
  }

  lemma SubStoreRanked(s: Store, m: Store)
    requires Ranked(m) && SubStore(s, m)
    ensures Ranked(s)
  {
  }

  /** A part of the store that holds a lineage yields the same lineage. */
  lemma {:induction false} LineageOfPart(s: Store, m: Store, pid: Option<Uuid>)
    requires Ranked(m) && SubStore(s, m)
    requires forall c :: c in Lineage(m, pid) ==> c.id in s
    ensures Ranked(s) && Lineage(s, pid) == Lineage(m, pid)
    decreases Rank(m, pid)
  {
    SubStoreRanked(s, m);
    if pid.Some? && pid.value in m {
      var c := m[pid.value];
      var l' := Lineage(m, c.parentId);
      assert c in Lineage(m, pid);
      assert forall x :: x in l' ==> x in Lineage(m, pid);
      LineageShape(m, pid);
      LineageOfPart(s, m, c.parentId);
    }
  }

  // The recursive ancestor query.

  /**
   * What `findAncestorsForComments(ids)` returns, up to order: for each id,
   * the stored comment with that id and all its stored ancestors.
   */
  function AncestorPool(m: Store, ids: seq<Uuid>): seq<Comment>
    requires Ranked(m)
    decreases |ids|
  {
    if |ids| == 0 then [] else AncestorPool(m, ids[..|ids| - 1]) + Lineage(m, Some(ids[|ids| - 1]))
  }

  lemma {:induction false} AncestorPoolContents(m: Store, ids: seq<Uuid>, c: Comment)
    requires Ranked(m)
    ensures c in AncestorPool(m, ids) <==> exists k :: 0 <= k < |ids| && c in Lineage(m, Some(ids[k]))
    decreases |ids|
  {
    if |ids| > 0 {
      var ids' := ids[..|ids| - 1];
      AncestorPoolContents(m, ids', c);
      if c in AncestorPool(m, ids') {
        var k :| 0 <= k < |ids'| && c in Lineage(m, Some(ids'[k]));
        assert ids[k] == ids'[k];
      }
      if exists k :: 0 <= k < |ids| && c in Lineage(m, Some(ids[k])) {
        var k :| 0 <= k < |ids| && c in Lineage(m, Some(ids[k]));
        if k < |ids'| {
          assert ids'[k] == ids[k];
        }
      }
    }
  }

  /** Every member of the pool is a stored record. */
  lemma AncestorPoolStored(m: Store, ids: seq<Uuid>, c: Comment)
    requires Ranked(m) && c in AncestorPool(m, ids)
    ensures c.id in m && m[c.id] == c
  {
    AncestorPoolContents(m, ids, c);
    var k :| 0 <= k < |ids| && c in Lineage(m, Some(ids[k]));
    LineageShape(m, Some(ids[k]));
  }

  /**
   * The lookup built from the pool (`toMap` with the first record of each id
   * kept).
   */
  function PoolMap(pool: seq<Comment>): Store
    decreases |pool|
  {
    if |pool| == 0 then map[]
    else
      var m := PoolMap(pool[..|pool| - 1]);
      var c := pool[|pool| - 1];
      if c.id in m then m else m[c.id := c]
  }

  /** The lookup has a key for every id in the pool, holding the first record with that id. */
  lemma {:induction false} PoolMapContents(pool: seq<Comment>, id: Uuid)
    ensures id in PoolMap(pool) <==> exists c :: c in pool && c.id == id
    ensures id in PoolMap(pool) ==> PoolMap(pool)[id] in pool && PoolMap(pool)[id].id == id
    decreases |pool|
  {
    if |pool| > 0 {
      var pool' := pool[..|pool| - 1];
      PoolMapContents(pool', id);
      assert pool == pool' + [pool[|pool| - 1]];
    }
  }

  /** A pool of stored records yields a part of the store. */
  lemma PoolMapIsPart(pool: seq<Comment>, m: Store)
    requires forall c :: c in pool ==> c.id in m && m[c.id] == c
    ensures SubStore(PoolMap(pool), m)
  {
    forall id | id in PoolMap(pool) ensures id in m && PoolMap(pool)[id] == m[id] {
      PoolMapContents(pool, id);
    }
  }

  /**
   * The lookup built from the ancestor query for `ids` yields, for the parent
   * of each stored comment named in `ids`, the lineage the store has.
   */
  lemma PoolLineage(m: Store, ids: seq<Uuid>, k: nat)
    requires Ranked(m) && k < |ids| && ids[k] in m
    ensures Ranked(PoolMap(AncestorPool(m, ids)))
    ensures Lineage(PoolMap(AncestorPool(m, ids)), m[ids[k]].parentId) == Lineage(m, m[ids[k]].parentId)
  {
    var pool := AncestorPool(m, ids);
    forall c | c in pool ensures c.id in m && m[c.id] == c {
      AncestorPoolStored(m, ids, c);
    }
    PoolMapIsPart(pool, m);
    var t := m[ids[k]];
    assert Lineage(m, Some(ids[k])) == Lineage(m, t.parentId) + [t];
    forall c | c in Lineage(m, t.parentId) ensures c.id in PoolMap(pool) {
      assert c in Lineage(m, Some(ids[k]));
      AncestorPoolContents(m, ids, c);
      PoolMapContents(pool, c.id);
    }
    LineageOfPart(PoolMap(pool), m, t.parentId);
  }
}
