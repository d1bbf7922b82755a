/**
 * The comment service: writes that answer at once, evict the author's
 * cached listings and hand the change to the event topic (the table itself
 * is only written by the event consumer), and reads that serve a user's
 * listings, pages and trees from the local cache when they are there and
 * build and cache them otherwise.
 *
 * New ids and the clock are parameters of the writes; the order in which
 * the table returns its rows is the parameter `order` of the reads.
 */
module CommentService {
  import opened Wrappers
  import opened Text
  import opened CommentModel
  import opened CommentStore
  import CacheKeys
  import opened CaffeineCache
  import opened Invalidation
  import opened Validations
  import opened Threads
  import Merge
  import opened CommentTree
  import opened Pagination

  /** What the service keeps in the local cache: thread listings, pages of comments and trees. */
  datatype CacheValue =
    | ResponseValue(response: UserCommentsResponse)
    | PageValue(page: Page<CommentNode>)
    | TreeValue(tree: Tree)

  // The type tests of the cache reads.

  function IsResponse(): CacheValue -> bool {
    (v: CacheValue) => v.ResponseValue?
  }

  function IsPage(): CacheValue -> bool {
    (v: CacheValue) => v.PageValue?
  }

  function IsTree(): CacheValue -> bool {
    (v: CacheValue) => v.TreeValue?
  }

  /** The producer side of the event topic: the events published so far, in order. */
  class CommentEventProducer {
    var published: seq<CommentEvent>

    constructor()
      ensures published == []
    {
      published := [];
    }

    method PublishEvent(e: CommentEvent)
      modifies this
      ensures published == old(published) + [e]
    {
      published := published + [e];
    }
  }

  /** The cache after a write by `userId` in `applicationId`: both of the author's families evicted. */
  function AfterWrite(m: map<string, CacheValue>, applicationId: Uuid, userId: Uuid): map<string, CacheValue> {
    Evicted(Evicted(m, ListingsPrefix(applicationId, userId)), PagesPattern(applicationId, userId))
  }

  /**
   * A write keeps every cached entry except the author's listings and pages
   * in the application: among the system's keys, exactly those it owns are
   * dropped, and the rest keep their values.
   */
  lemma AfterWriteExactly(m: map<string, CacheValue>, a: Uuid, u: Uuid, k: CacheKeys.CacheKey)
    ensures CacheKeys.Render(k) in AfterWrite(m, a, u) <==> CacheKeys.Render(k) in m && !OwnedBy(a, u, k)
    ensures CacheKeys.Render(k) in AfterWrite(m, a, u) ==> AfterWrite(m, a, u)[CacheKeys.Render(k)] == m[CacheKeys.Render(k)]
  {
    WriteEvictsExactlyOwned(a, u, k);
  }

  // The read results as functions of the table and the cache.

  /** The page number and size that go into a thread listing's key; an unpaged request writes -1 for both. */
  function KeyPage(p: Pageable): int {
    if p.Paged? then p.pageNumber else -1
  }

  function KeySize(p: Pageable): int {
    if p.Paged? then p.pageSize else -1
  }

  function ListingKey(a: Uuid, u: Uuid, p: Pageable, s: Option<int>): string {
    CacheKeys.UserCommentsKey(a, u, s, KeyPage(p), KeySize(p))
  }

  /** The user's comments in the application (with the sentiment, when one is given), in table order. */
  function UserMatches(rows: Store, order: seq<Uuid>, a: Uuid, u: Uuid, s: Option<int>): seq<Comment>
    requires forall id :: id in order ==> id in rows
  {
    Filter(Rows(rows, order), if s.Some? then InApplicationByUserAndSentiment(a, u, s.value) else InApplicationByUser(a, u))
  }

  /**
   * The thread listing built from the table: a thread per comment of the
   * requested page of the user's comments, each with the comment's
   * ancestry, and the number of the user's comments as total.
   */
  function UserThreads(rows: Store, order: seq<Uuid>, a: Uuid, u: Uuid, p: Pageable, s: Option<int>): (r: UserCommentsResponse)
    requires Ranked(rows) && forall id :: id in order ==> id in rows
    ensures r.totalElements == |UserMatches(rows, order, a, u, s)|
    ensures |r.threads| == |Slice(UserMatches(rows, order, a, u, s), p)|
    ensures forall k :: 0 <= k < |r.threads| ==> r.threads[k].target == Slice(UserMatches(rows, order, a, u, s), p)[k]
  {
    UserCommentsResponse(ThreadsOf(rows, Slice(UserMatches(rows, order, a, u, s), p)), |UserMatches(rows, order, a, u, s)|)
  }

  predicate HasResponse(m: map<string, CacheValue>, key: string) {
    key in m && m[key].ResponseValue?
  }

  /** The thread listing a read gets: the cached one if there is one, and otherwise the one built from the table. */
  function ResponseFor(m: map<string, CacheValue>, rows: Store, order: seq<Uuid>, a: Uuid, u: Uuid, p: Pageable, s: Option<int>): UserCommentsResponse
    requires Ranked(rows) && forall id :: id in order ==> id in rows
  {
    var key := ListingKey(a, u, p, s);
    if HasResponse(m, key) then m[key].response else UserThreads(rows, order, a, u, p, s)
  }

  /** The cache after reading a thread listing: a listing that was built is cached unless it is empty. */
  function CacheAfterResponse(m: map<string, CacheValue>, rows: Store, order: seq<Uuid>, a: Uuid, u: Uuid, p: Pageable, s: Option<int>): map<string, CacheValue>
    requires Ranked(rows) && forall id :: id in order ==> id in rows
  {
    var key := ListingKey(a, u, p, s);
    var built := UserThreads(rows, order, a, u, p, s);
    if HasResponse(m, key) || |built.threads| == 0 then m else m[key := ResponseValue(built)]
  }

  /** A read of the thread listing either hits the cache, leaving it as it was, or builds the listing. */
  lemma ResponseCases(m: map<string, CacheValue>, rows: Store, order: seq<Uuid>, a: Uuid, u: Uuid, p: Pageable, s: Option<int>)
    requires Ranked(rows) && forall id :: id in order ==> id in rows
    ensures var key := ListingKey(a, u, p, s);
      HasResponse(m, key) ==>
      ResponseFor(m, rows, order, a, u, p, s) == m[key].response && CacheAfterResponse(m, rows, order, a, u, p, s) == m
    ensures var key, built := ListingKey(a, u, p, s), UserThreads(rows, order, a, u, p, s);
      !HasResponse(m, key) ==>
      ResponseFor(m, rows, order, a, u, p, s) == built &&
      CacheAfterResponse(m, rows, order, a, u, p, s) == if |built.threads| == 0 then m else m[key := ResponseValue(built)]
  {
  }

  /** The requested page of the application's comments, in table order. */
  function AppPage(rows: Store, order: seq<Uuid>, a: Uuid, p: Pageable): seq<Comment>
    requires forall id :: id in order ==> id in rows
  {
    Slice(Filter(Rows(rows, order), InApplication(a)), p)
  }

  /**
   * The user-specific page: the threads merged into root trees, followed
   * by the page's root comments outside every thread, and the requested
   * slice of that list with its length as total.
   */
  function Listing(threads: seq<Thread>, appPage: seq<Comment>, p: Pageable): (r: Page<CommentNode>)
    ensures r.pageable == p
    ensures r.total == |Merge.MergeAll(threads).roots| + |Filter(appPage, Merge.IsOther(MemberIds(threads)))|
  {
    var result := Merge.MergedListing(Merge.MergeAll(threads), Filter(appPage, Merge.IsOther(MemberIds(threads))));
    Page(Slice(result, p), p, |result|)
  }

  function Leaves(cs: seq<Comment>): (r: seq<CommentNode>)
    ensures |r| == |cs| && forall i :: 0 <= i < |cs| ==> r[i] == CommentNode(cs[i], [])
  {
    seq(|cs|, i requires 0 <= i < |cs| => CommentNode(cs[i], []))
  }

  /** The page without a user: the derived query on application and parent, and sentiment when one is given. */
  function PlainPage(rows: Store, order: seq<Uuid>, a: Uuid, parentId: Option<Uuid>, s: Option<int>, p: Pageable): (r: Page<CommentNode>)
    requires forall id :: id in order ==> id in rows
  {
    var cond := if s.Some? then InApplicationByParentAndSentiment(a, parentId, s.value) else InApplicationByParent(a, parentId);
    var q := Query(Filter(Rows(rows, order), cond), p);
    Page(Leaves(q.content), p, q.total)
  }

  function PageKey(a: Uuid, parentId: Option<Uuid>, s: Option<int>, u: Uuid, p: Pageable): string
    requires p.Paged?
  {
    CacheKeys.CommentsKey(a, CacheKeys.UuidOrNull(parentId), s, u, p.pageNumber, p.pageSize)
  }

  predicate HasPage(m: map<string, CacheValue>, key: string) {
    key in m && m[key].PageValue?
  }

  predicate HasTree(m: map<string, CacheValue>, key: string) {
    key in m && m[key].TreeValue?
  }

  /** The application's comments, in table order. */
  function AppRows(rows: Store, order: seq<Uuid>, a: Uuid): seq<Comment>
    requires forall id :: id in order ==> id in rows
  {
    Filter(Rows(rows, order), InApplication(a))
  }

  class CommentService {
    const repository: CommentRepository
    const cache: CaffeineCacheService<CacheValue>
    const producer: CommentEventProducer

    constructor(repository: CommentRepository, cache: CaffeineCacheService<CacheValue>, producer: CommentEventProducer)
      ensures this.repository == repository && this.cache == cache && this.producer == producer
    {
      this.repository := repository;
      this.cache := cache;
      this.producer := producer;
    }

    /**
     * The eviction of a write (`updateCacheWithNewComment`, `...Modified...`
     * and `...Deleted...` all do the same): the author's thread listings in
     * the application by prefix, and the author's pages by wildcard.
     */
    method UpdateCacheForWrite(c: Comment)
      modifies cache
      ensures cache.entries == AfterWrite(old(cache.entries), c.applicationId, c.userId)
    {
      var userCommentsPrefix := ListingsPrefix(c.applicationId, c.userId);
      cache.EvictPattern(userCommentsPrefix);
      var commentsWithUserPattern := PagesPattern(c.applicationId, c.userId);
      cache.EvictPattern(commentsWithUserPattern);
    }

    /**
     * Creates a comment with the given id and timestamps, at level 0 for a
     * root and one below its parent otherwise, evicts the author's cached
     * listings and publishes the creation. A parent that is not stored is a
     * failure, before anything changes.
     */
    method AddComment(draft: Comment, newId: Uuid, createdAt: Timestamp, updatedAt: Timestamp) returns (r: Result<Comment, string>)
      modifies cache, producer
      ensures r.Success? <==> draft.parentId.None? || draft.parentId.value in repository.rows
      ensures r.Success? ==>
        r.value == draft.(id := newId, createdAt := createdAt, updatedAt := updatedAt, level := r.value.level) &&
        (draft.parentId.None? ==> r.value.level == 0) &&
        (draft.parentId.Some? ==> r.value.level == repository.rows[draft.parentId.value].level + 1) &&
        producer.published == old(producer.published) + [CreatedEvent(r.value)] &&
        cache.entries == AfterWrite(old(cache.entries), r.value.applicationId, r.value.userId)
      ensures r.Failure? ==>
        r.error == NotFoundMessage("Comment", "Parent commment") &&
        producer.published == old(producer.published) && cache.entries == old(cache.entries)
    {
      var comment := draft.(id := newId, createdAt := createdAt, updatedAt := updatedAt);
      if comment.parentId.None? {
        comment := comment.(level := 0);
      } else {
        var found := repository.FindById(comment.parentId.value);
        var parent := ValidateOptionalExistence(found, "Comment", "Parent commment");
        if parent.Failure? {
          return Failure(parent.error);
        }
        var parentLevel := parent.value.level;
        comment := comment.(level := parentLevel + 1);
      }
      UpdateCacheForWrite(comment);
      producer.PublishEvent(CreatedEvent(comment));
      return Success(comment);
    }

    /**
     * Updates a stored comment by the update rule, evicts the author's
     * cached listings and publishes the updated record. An unknown id is a
     * failure, before anything changes.
     */
    method UpdateComment(id: Uuid, updatedText: Option<string>, sentiment: Option<Short>, now: Timestamp) returns (r: Result<Comment, string>)
      modifies cache, producer
      ensures r.Success? <==> id in repository.rows
      ensures r.Success? ==>
        r.value == ApplyUpdate(repository.rows[id], updatedText, sentiment, now) &&
        producer.published == old(producer.published) + [UpdatedEvent(r.value)] &&
        cache.entries == AfterWrite(old(cache.entries), r.value.applicationId, r.value.userId)
      ensures r.Failure? ==>
        r.error == NotFoundMessage("Comment", "Comment") &&
        producer.published == old(producer.published) && cache.entries == old(cache.entries)
    {
      var found := repository.FindById(id);
      var existing := ValidateOptionalExistence(found, "Comment", "Comment");
      if existing.Failure? {
        return Failure(existing.error);
      }
      var c := existing.value;
      if updatedText.Some? {
        c := c.(text := updatedText);
      }
      if sentiment.Some? && c.level == 0 {
        c := c.(sentiment := sentiment);
      }
      c := c.(updatedAt := now);
      UpdateCacheForWrite(c);
      producer.PublishEvent(UpdatedEvent(c));
      return Success(c);
    }

    /**
     * Evicts the author's cached listings and publishes the deletion of a
     * stored comment. An unknown id is a failure, before anything changes.
     */
    method DeleteComment(id: Uuid, now: Timestamp) returns (o: Outcome<string>)
      modifies cache, producer
      ensures o.Pass? <==> id in repository.rows
      ensures o.Pass? ==>
        var c := repository.rows[id];
        producer.published == old(producer.published) + [DeletedEvent(c, now)] &&
        cache.entries == AfterWrite(old(cache.entries), c.applicationId, c.userId)
      ensures o.Fail? ==>
        o.error == NotFoundMessage("Comment", "Comment") &&
        producer.published == old(producer.published) && cache.entries == old(cache.entries)
    {
      var found := repository.FindById(id);
      var comment := ValidateOptionalExistence(found, "Comment", "Comment");
      if comment.Failure? {
        return Fail(comment.error);
      }
      UpdateCacheForWrite(comment.value);
      producer.PublishEvent(DeletedEvent(comment.value, now));
      return Pass;
    }

    /**
     * The user's thread listing built from the table: the page of the user's
     * comments, the ancestors of those with a parent fetched in one query,
     * and each comment's chain rebuilt from them.
     */
    method BuildUserThreads(a: Uuid, u: Uuid, p: Pageable, s: Option<int>, order: seq<Uuid>)
      returns (resp: UserCommentsResponse)
      requires Ranked(repository.rows) && Enumerates(repository.rows, order)
      ensures resp == UserThreads(repository.rows, order, a, u, p, s)
    {
      var all := Rows(repository.rows, order);
      var cond := if s.Some? then InApplicationByUserAndSentiment(a, u, s.value) else InApplicationByUser(a, u);
      var userCommentsPage := Query(Filter(all, cond), p);
      var userComments := userCommentsPage.content;
      if |userComments| == 0 {
        return UserCommentsResponse([], userCommentsPage.total);
      }
      var nestedCommentIds := NestedIds(userComments);
      var ancestors := AncestorPool(repository.rows, nestedCommentIds);
      forall k | 0 <= k < |userComments|
        ensures userComments[k].id in repository.rows && repository.rows[userComments[k].id] == userComments[k]
      {
        SliceMembers(Filter(all, cond), p, userComments[k]);
        FilterMembers(all, cond, userComments[k]);
        RowsExactly(repository.rows, order, userComments[k]);
      }
      ThreadsFromPool(repository.rows, userComments);
      var lineageMap := BuildLineageMap(userComments, ancestors);
      var threads := ThreadsFrom(userComments, lineageMap);
      resp := UserCommentsResponse(threads, userCommentsPage.total);
    }

    /** The user's thread listing: from the cache when it is there, and otherwise built and, unless empty, cached. */
    method GetUserCommentsForApplication(a: Uuid, u: Uuid, p: Pageable, s: Option<int>, order: seq<Uuid>)
      returns (resp: UserCommentsResponse)
      requires Ranked(repository.rows) && Enumerates(repository.rows, order)
      modifies cache
      ensures resp == ResponseFor(old(cache.entries), repository.rows, order, a, u, p, s)
      ensures cache.entries == CacheAfterResponse(old(cache.entries), repository.rows, order, a, u, p, s)
    {
      // The page number and size stand at -1 in the key of an unpaged request.
      var cacheKey := ListingKey(a, u, p, s);
      ResponseCases(cache.entries, repository.rows, order, a, u, p, s);
      var cached := cache.Get(cacheKey, IsResponse());
      if cached.Some? {
        return cached.value.response;
      }
      resp := BuildUserThreads(a, u, p, s, order);
      if |resp.threads| > 0 {
        cache.Put(cacheKey, ResponseValue(resp));
      }
    }

    /**
     * A page of comments. With a user: from the cache when it is there;
     * otherwise the user's threads merged into root trees, then the page's
     * other root comments, sliced to the requested page and cached. An
     * unpaged request fails on reading its page number. Without a user: the
     * derived query, uncached.
     */
    method GetComments(a: Uuid, parentId: Option<Uuid>, s: Option<int>, p: Pageable, userId: Option<Uuid>, order: seq<Uuid>)
      returns (r: Result<Page<CommentNode>, string>)
      requires Ranked(repository.rows) && Enumerates(repository.rows, order)
      modifies cache
      ensures userId.None? ==>
        r == Success(PlainPage(repository.rows, order, a, parentId, s, p)) && cache.entries == old(cache.entries)
      ensures userId.Some? && p.Unpaged? ==> r.Failure? && cache.entries == old(cache.entries)
      ensures userId.Some? && p.Paged? && HasPage(old(cache.entries), PageKey(a, parentId, s, userId.value, p)) ==>
        r == Success(old(cache.entries)[PageKey(a, parentId, s, userId.value, p)].page) && cache.entries == old(cache.entries)
      ensures userId.Some? && p.Paged? && !HasPage(old(cache.entries), PageKey(a, parentId, s, userId.value, p)) ==>
        var threads := ResponseFor(old(cache.entries), repository.rows, order, a, userId.value, p, s).threads;
        r == Success(Listing(threads, AppPage(repository.rows, order, a, p), p)) &&
        cache.entries == CacheAfterResponse(old(cache.entries), repository.rows, order, a, userId.value, p, s)
          [PageKey(a, parentId, s, userId.value, p) := PageValue(r.value)]
    {
      if userId.None? {
        var cond := if s.Some? then InApplicationByParentAndSentiment(a, parentId, s.value) else InApplicationByParent(a, parentId);
        var page := Query(Filter(Rows(repository.rows, order), cond), p);
        return Success(Page(Leaves(page.content), p, page.total));
      }
      var u := userId.value;
      if p.Unpaged? {
        return Failure("UnsupportedOperationException");
      }
      var cacheKey := CacheKeys.CommentsKey(a, CacheKeys.UuidOrNull(parentId), s, u, p.pageNumber, p.pageSize);
      var cached := cache.Get(cacheKey, IsPage());
      if cached.Some? {
        return Success(cached.value.page);
      }
      var userResp := GetUserCommentsForApplication(a, u, p, s, order);
      var forest, userAndContextIds := Merge.MergeThreads(userResp.threads);
      var appPage := Query(Filter(Rows(repository.rows, order), InApplication(a)), p).content;
      var others := Filter(appPage, Merge.IsOther(userAndContextIds));
      var result := Merge.MergedListing(forest, others);
      var pageContent := Slice(result, p);
      SliceKeepsTotal(result, p);
      var page := Page(pageContent, p, PageImplTotal(|pageContent|, p, |result|));
      cache.Put(cacheKey, PageValue(page));
      return Success(page);
    }

    /**
     * The application's comment tree. With a user: from the cache when it is
     * there; otherwise assembled with the user's thread members first (the
     * user's listing is read unpaged) and cached. Without a user: assembled
     * in table order, uncached.
     */
    method GetCommentTree(a: Uuid, userId: Option<Uuid>, order: seq<Uuid>) returns (t: Tree)
      requires Ranked(repository.rows) && Enumerates(repository.rows, order)
      modifies cache
      ensures userId.None? ==> t == TreeOf(AppRows(repository.rows, order, a), None) && cache.entries == old(cache.entries)
      ensures userId.Some? && HasTree(old(cache.entries), CacheKeys.CommentTreeKey(a, userId.value)) ==>
        t == old(cache.entries)[CacheKeys.CommentTreeKey(a, userId.value)].tree && cache.entries == old(cache.entries)
      ensures userId.Some? && !HasTree(old(cache.entries), CacheKeys.CommentTreeKey(a, userId.value)) ==>
        var threads := ResponseFor(old(cache.entries), repository.rows, order, a, userId.value, Unpaged, None).threads;
        t == TreeOf(AppRows(repository.rows, order, a), Some(MemberIds(threads))) &&
        cache.entries == CacheAfterResponse(old(cache.entries), repository.rows, order, a, userId.value, Unpaged, None)
          [CacheKeys.CommentTreeKey(a, userId.value) := TreeValue(t)]
    {
      if userId.Some? {
        var cacheKey := CacheKeys.CommentTreeKey(a, userId.value);
        var cached := cache.Get(cacheKey, IsTree());
        if cached.Some? {
          return cached.value.tree;
        }
      }
      var all := Filter(Rows(repository.rows, order), InApplication(a));
      if userId.Some? {
        var userResp := GetUserCommentsForApplication(a, userId.value, Unpaged, None, order);
        var userAndContextIds := MemberIds(userResp.threads);
        t := AssembleTree(all, Some(userAndContextIds));
        var cacheKey := CacheKeys.CommentTreeKey(a, userId.value);
        cache.Put(cacheKey, TreeValue(t));
      } else {
        t := AssembleTree(all, None);
      }
    }
  }

  /**
   * A listing built from the table gives every comment of the page its own
   * ancestry: the thread's context is the comment's chain of stored
   * ancestors, root first.
   */
  lemma UserThreadsContext(rows: Store, order: seq<Uuid>, a: Uuid, u: Uuid, p: Pageable, s: Option<int>, k: nat)
    requires Ranked(rows) && (forall id :: id in order ==> id in rows)
    requires k < |UserThreads(rows, order, a, u, p, s).threads|
    ensures var t := UserThreads(rows, order, a, u, p, s).threads[k];
      t.target in UserMatches(rows, order, a, u, s) &&
      t.target.applicationId == a && t.target.userId == u &&
      t.context == Lineage(rows, t.target.parentId)
  {
    var matches := UserMatches(rows, order, a, u, s);
    var t := UserThreads(rows, order, a, u, p, s).threads[k];
    SliceMembers(matches, p, t.target);
    var cond := if s.Some? then InApplicationByUserAndSentiment(a, u, s.value) else InApplicationByUser(a, u);
    FilterMembers(Rows(rows, order), cond, t.target);
  }

  /**
   * The user-specific page lists the merged roots, one per distinct thread
   * root in order of first occurrence, and after them the page's root
   * comments outside the threads; its total counts both.
   */
  lemma ListingShape(threads: seq<Thread>, appPage: seq<Comment>, p: Pageable, c: Comment)
    ensures var others := Filter(appPage, Merge.IsOther(MemberIds(threads)));
      Listing(threads, appPage, p).total == |Merge.Dedup(Merge.HeadIds(threads))| + |others| &&
      (c in others <==> c in appPage && c.level == 0 && c.id !in MemberIds(threads)) &&
      (c in others ==> c.id !in Merge.RootIds(Merge.MergeAll(threads)))
  {
    Merge.RootsAreDistinctHeads(threads);
    Merge.OthersExactly(threads, appPage, c);
  }

  /**
   * While the page's offset plus its size stays within `int` range, the
   * slicing as written (through the `(int)` cast) gives the same content as
   * the slice the listing is built with.
   */
  lemma ListingAsWrittenAgrees(threads: seq<Thread>, appPage: seq<Comment>, p: Pageable)
    requires p.Paged? && Offset(p) + p.pageSize < 0x8000_0000
    ensures var result := Merge.MergedListing(Merge.MergeAll(threads), Filter(appPage, Merge.IsOther(MemberIds(threads))));
      SliceAsWritten(result, p) == Success(Listing(threads, appPage, p).content)
  {
    var result := Merge.MergedListing(Merge.MergeAll(threads), Filter(appPage, Merge.IsOther(MemberIds(threads))));
    SliceAsWrittenAgrees(result, p);
  }

  /**
   * The merged list is built from one page of threads and one page of the
   * application's comments, and is then sliced at the page's offset again:
   * from the third page on (page index 2) nothing is left to show.
   */
  lemma LaterPagesEmpty(threads: seq<Thread>, appPage: seq<Comment>, p: Pageable)
    requires p.Paged? && p.pageNumber >= 2 && |threads| <= p.pageSize && |appPage| <= p.pageSize
    ensures Listing(threads, appPage, p).content == []
    ensures Listing(threads, appPage, p).total <= 2 * p.pageSize
  {
    Merge.RootsAreDistinctHeads(threads);
    Merge.DedupShorter(Merge.HeadIds(threads));
    OffsetPastTwoPages(p.pageNumber, p.pageSize);
  }

  /** A freshly built user listing is such a page of threads, so its third and later pages are empty. */
  lemma UserListingLaterPagesEmpty(rows: Store, order: seq<Uuid>, a: Uuid, u: Uuid, p: Pageable, s: Option<int>)
    requires Ranked(rows) && forall id :: id in order ==> id in rows
    requires p.Paged? && p.pageNumber >= 2
    ensures Listing(UserThreads(rows, order, a, u, p, s).threads, AppPage(rows, order, a, p), p).content == []
  {
    LaterPagesEmpty(UserThreads(rows, order, a, u, p, s).threads, AppPage(rows, order, a, p), p);
  }

  lemma OffsetPastTwoPages(n: int, z: int)
    requires n >= 2 && z >= 1
    ensures n * z >= 2 * z
  {
    MulNonNegative(n - 2, z);
    assert n * z == (n - 2) * z + 2 * z;
  }
}
