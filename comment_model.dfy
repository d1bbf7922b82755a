/**
 * The data of the comment engine: comment records, the events that carry
 * writes to the persistence side, the thread views handed back to readers,
 * page requests, and sequence filters that the queries and the tree
 * assembly are built from.
 */
module CommentModel {
  import opened Wrappers
  import opened Text

  /**
   * A stored comment or review. A root comment (a review) has no parent and
   * level 0; a reply has its parent's level plus one. The list of children
   * that the record class also carries is not stored: it only exists in the
   * trees built for readers, which are modelled separately.
   */
  datatype Comment = Comment(
    id: Uuid,
    applicationId: Uuid,
    userId: Uuid,
    text: Option<string>,
    sentiment: Option<Short>,
    level: int,
    parentId: Option<Uuid>,
    createdAt: Timestamp,
    updatedAt: Timestamp)

  datatype EventType = Created | Updated | Deleted

  /** A write on its way to the persistence side. Every field but the type and the ids may be null. */
  datatype CommentEvent = CommentEvent(
    eventType: EventType,
    commentId: Uuid,
    applicationId: Uuid,
    userId: Uuid,
    text: Option<string>,
    sentiment: Option<Short>,
    parentId: Option<Uuid>,
    level: Option<int>,
    timestamp: Timestamp)

  /** One of a user's comments with its ancestors, ordered from the root down to the immediate parent. */
  datatype Thread = Thread(target: Comment, context: seq<Comment>)

  datatype UserCommentsResponse = UserCommentsResponse(threads: seq<Thread>, totalElements: int)

  /** A thread's comments from the root down to the target. */
  function Chain(t: Thread): (c: seq<Comment>)
    ensures |c| == |t.context| + 1 && c[|t.context|] == t.target
    ensures c[..|t.context|] == t.context
  {
    t.context + [t.target]
  }

  /** A comment as handed to readers, with the replies attached to it. */
  datatype CommentNode = CommentNode(comment: Comment, children: seq<CommentNode>)

  /**
   * The update rule, applied by the service to the record it answers with
   * and by the consumer to the stored record: the text is replaced when a
   * new one is given, the sentiment only when one is given and the comment
   * is a root, and the update time is always restamped.
   */
  function ApplyUpdate(c: Comment, text: Option<string>, sentiment: Option<Short>, at: Timestamp): (r: Comment)
    ensures text.Some? ==> r.text == text
    ensures text.None? ==> r.text == c.text
    ensures sentiment.Some? && c.level == 0 ==> r.sentiment == sentiment
    ensures sentiment.None? || c.level != 0 ==> r.sentiment == c.sentiment
    ensures r.updatedAt == at
    ensures r.(text := c.text, sentiment := c.sentiment, updatedAt := c.updatedAt) == c
  {
    var withText := if text.Some? then c.(text := text) else c;
    var withSentiment := if sentiment.Some? && c.level == 0 then withText.(sentiment := sentiment) else withText;
    withSentiment.(updatedAt := at)
  }

  /** Updating twice with the same arguments is updating once. */
  lemma ApplyUpdateIdempotent(c: Comment, text: Option<string>, sentiment: Option<Short>, at: Timestamp)
    ensures ApplyUpdate(ApplyUpdate(c, text, sentiment, at), text, sentiment, at) == ApplyUpdate(c, text, sentiment, at)
  {
  }

  /** The event announcing a new comment: every field of the record, stamped with its creation time. */
  function CreatedEvent(c: Comment): CommentEvent {
    CommentEvent(Created, c.id, c.applicationId, c.userId, c.text, c.sentiment, c.parentId, Some(c.level), c.createdAt)
  }

  /** The event announcing an update: every field of the updated record, stamped with its update time. */
  function UpdatedEvent(c: Comment): CommentEvent {
    CommentEvent(Updated, c.id, c.applicationId, c.userId, c.text, c.sentiment, c.parentId, Some(c.level), c.updatedAt)
  }

  /** The event announcing a deletion: the identifiers only, stamped with the time of the request. */
  function DeletedEvent(c: Comment, now: Timestamp): CommentEvent {
    CommentEvent(Deleted, c.id, c.applicationId, c.userId, None, None, None, None, now)
  }

  function Min(x: int, y: int): int { if x <= y then x else y }

  /** The ids of every comment of the threads, targets and contexts alike. */
  function MemberIds(ts: seq<Thread>): set<Uuid>
    decreases |ts|
  {
    if |ts| == 0 then {} else MemberIds(ts[..|ts| - 1]) + Ids(Chain(ts[|ts| - 1]))
  }

  lemma MemberIdsSnoc(ts: seq<Thread>)
    requires |ts| > 0
    ensures forall id :: id in MemberIds(ts) <==> id in MemberIds(ts[..|ts| - 1]) || id in Ids(Chain(ts[|ts| - 1]))
  {
  }

  /** Every id of a single thread is an id of the threads. */
  lemma {:induction false} MemberIdsInclude(ts: seq<Thread>, k: nat, c: Comment)
    requires k < |ts| && c in Chain(ts[k])
    ensures c.id in MemberIds(ts)
    decreases |ts|
  {
    var ts' := ts[..|ts| - 1];
    MemberIdsSnoc(ts);
    if k < |ts'| {
      assert ts'[k] == ts[k];
      MemberIdsInclude(ts', k, c);
    }
  }

  /** Every id of the threads is an id of one of them. */
  lemma {:induction false} MemberIdsFrom(ts: seq<Thread>, id: Uuid) returns (k: nat)
    requires id in MemberIds(ts)
    ensures k < |ts| && id in Ids(Chain(ts[k]))
    decreases |ts|
  {
    var ts' := ts[..|ts| - 1];
    if id in MemberIds(ts') {
      k := MemberIdsFrom(ts', id);
      assert ts'[k] == ts[k];
    } else {
      k := |ts| - 1;
    }
  }

  lemma MemberIdsExactly(ts: seq<Thread>, id: Uuid)
    ensures id in MemberIds(ts) <==> exists k, c :: 0 <= k < |ts| && c in Chain(ts[k]) && c.id == id
  {
    if id in MemberIds(ts) {
      var k := MemberIdsFrom(ts, id);
      var c :| c in Chain(ts[k]) && c.id == id;
    }
    if k, c :| 0 <= k < |ts| && c in Chain(ts[k]) && c.id == id {
      MemberIdsInclude(ts, k, c);
    }
  }

  type PageIndex = x: int | 0 <= x < 0x8000_0000
  type PageSize = x: int | 1 <= x < 0x8000_0000 witness 1

  /** A page request as `PageRequest.of(page, size)` builds it, or the request for everything. */
  datatype Pageable = Unpaged | Paged(pageNumber: PageIndex, pageSize: PageSize)

  /** The position of the first element of a page: `page * size`, computed as a `long`. */
  function Offset(p: Pageable): (r: int)
    ensures p.Unpaged? ==> r == 0
    ensures p.Paged? ==> r == p.pageNumber * p.pageSize && 0 <= r < 0x4000_0000_0000_0000
  {
    match p
    case Unpaged => 0
    case Paged(n, z) => ProductBound(n, z); n * z
  }

  /** Below 2^31 times below 2^31 stays below 2^62, so a page offset fits a `long`. */
  lemma ProductBound(n: int, z: int)
    requires 0 <= n < 0x8000_0000 && 1 <= z < 0x8000_0000
    ensures 0 <= n * z < 0x4000_0000_0000_0000
  {
    var m := 0x8000_0000;
    MulNonNegative(n, z);
    MulNonNegative(n, m - z);
    assert n * m == n * z + n * (m - z);
    assert n * m < m * m;
  }

  lemma MulNonNegative(a: int, b: int)
    requires 0 <= a && 0 <= b
    ensures 0 <= a * b
  {
  }

  /** A page of results: its content, the request it answers and the total number of matches. */
  datatype Page<T> = Page(content: seq<T>, pageable: Pageable, total: int)

  /** The elements of `s` that satisfy `p`, in order. */
  function Filter<T>(s: seq<T>, p: T -> bool): (r: seq<T>)
    ensures |r| <= |s|
    decreases |s|
  {
    if |s| == 0 then [] else Filter(s[..|s| - 1], p) + (if p(s[|s| - 1]) then [s[|s| - 1]] else [])
  }

  lemma {:induction false} FilterMembers<T>(s: seq<T>, p: T -> bool, x: T)
    ensures x in Filter(s, p) <==> x in s && p(x)
    decreases |s|
  {
    if |s| > 0 {
      FilterMembers(s[..|s| - 1], p, x);
      assert s == s[..|s| - 1] + [s[|s| - 1]];
    }
  }

  lemma {:induction false} FilterAppend<T>(a: seq<T>, b: seq<T>, p: T -> bool)
    ensures Filter(a + b, p) == Filter(a, p) + Filter(b, p)
    decreases |b|
  {
    if |b| == 0 {
      assert a + b == a;
    } else {
      var b' := b[..|b| - 1];
      assert (a + b)[..|a + b| - 1] == a + b';
      FilterAppend(a, b', p);
    }
  }

  /** Filtering by two predicates one after the other, or by their conjunction, gives the same. */
  lemma {:induction false} FilterFilter<T>(s: seq<T>, p: T -> bool, q: T -> bool)
    ensures Filter(Filter(s, p), q) == Filter(s, x => p(x) && q(x))
    decreases |s|
  {
    if |s| > 0 {
      var s' := s[..|s| - 1];
      FilterFilter(s', p, q);
      FilterAppend(Filter(s', p), if p(s[|s| - 1]) then [s[|s| - 1]] else [], q);
    }
  }

  /** Filters that agree on every element of `s` select the same elements. */
  lemma {:induction false} FilterAgree<T>(s: seq<T>, p: T -> bool, q: T -> bool)
    requires forall x :: x in s ==> (p(x) <==> q(x))
    ensures Filter(s, p) == Filter(s, q)
    decreases |s|
  {
    if |s| > 0 {
      var s' := s[..|s| - 1];
      assert forall x :: x in s' ==> x in s;
      FilterAgree(s', p, q);
    }
  }

  /** The identifiers of a list of comments. */
  function Ids(cs: seq<Comment>): (r: set<Uuid>)
    ensures forall c :: c in cs ==> c.id in r
    ensures forall id :: id in r ==> exists c :: c in cs && c.id == id
    decreases |cs|
  {
    if |cs| == 0 then {} else Ids(cs[..|cs| - 1]) + {cs[|cs| - 1].id}
  }
}
