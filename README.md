# Ratings and reviews: the comment engine

This project models the comment engine of a ratings-and-reviews service and proves properties of the model. Comments are reviews (level 0, with an optional sentiment) and replies, which form trees through parent links. Writes work as follows:

- A write answers the caller at once and evicts the author's cached listings from a local cache.
- It then publishes an event.
- An event consumer applies each event to the comment table.

Reads work as follows:

- They rebuild each of a user's comments with its chain of ancestors.
- They merge those threads into root trees.
- They paginate the merged list by hand, or assemble the whole comment forest of an application.
- Their results are cached under structured string keys.

The model also covers the following parts:

- the local cache tier;
- the key builders and the two eviction modes (prefix and wildcard);
- the weighted rating average;
- the rating range check;
- the optional-existence validator that produces the engine's not-found errors.

Modules, one per file:

- `Wrappers`: `Option`, `Result` and `Outcome`, for values that may be null and calls that may throw.
- `Text`: the id text (the `UUID.toString` form), Java's `short` and `int`, and the text of integers as string concatenation writes it.
- `CacheKeys`: every key and pattern builder, a datatype of the keys the system builds, and proofs that keys from different builders or arguments never coincide.
- `CaffeineCache`: the local cache as a class over a `map`. Its `evictPattern` has two modes: prefix match, and full match of a glob in which `*` is the regular expression `.*`.
- `Invalidation`: the two patterns a write evicts. Among all keys the system builds, they select exactly the author's thread listings and comment pages in the application.
- `Validations`: `validateOptionalExistence`.
- `Ratings`: the `Rating` class with `setRating`, and the weighted average computed by a loop.
- `CommentModel`: the comment record, events, threads, pages, and the update rule shared by the service and the consumer.
- `CommentStore`:
  - the comment table as a class over a map from id to record;
  - the derived queries;
  - the corrected slice of a page;
  - the ancestry of a comment when levels increase along parent links;
  - the pool the recursive ancestor query returns.
- `Threads`: `buildLineageMap`, as a loop proved against its specification; a lemma proves that each target's chain is its line of stored ancestors.
- `Merge`: the user-thread merge.
  - Nodes are clones held in an arena, and children are index lists.
  - Each thread's chain can be found along a path from a root.
  - Siblings never share an id.
  - Roots are the distinct chain heads in order of first appearance.
  - Every node is a clone of an input comment.
- `Pagination`: the manual slicing as written, with 32-bit wrap-around and `PageImpl`'s total adjustment, next to the corrected slice.
- `CommentTree`: the two passes of `getCommentTree` over an application's comments, and the shape of the resulting forest.
- `EventConsumer`: each event as a transition of the table, and the consumer class that performs it.
- `CommentService`: the service class, with the table, the cache and the event producer as its parts. The merged user page is cut from two lists already paged with the same request and is then sliced at the page's offset again, so its third and later pages are always empty (`CommentService.LaterPagesEmpty`).

Inputs the model takes as parameters:

- New ids and clock readings.
- The order in which the table returns rows: a sequence `order` that lists every stored id once.

The service never writes the table; only the consumer does.

## Model

| member | source | states |
|---|---|---|
| CacheKeys.UserCommentsKey | src/main/java/com/ratingsandreviews/cache/CacheKeyBuilder.java:7-14 | every user-listing key starts with the user pattern of the same user |
| CacheKeys.CommentTreeKey | src/main/java/com/ratingsandreviews/cache/CacheKeyBuilder.java:27-33 | every tree key starts with the tree pattern of its application |
| CacheKeys.UuidOrNullInjective | src/main/java/com/ratingsandreviews/comment/CommentServiceImpl.java:43 | the parent text written into a page key (`null` for no parent, else the id) tells every two parent references apart |
| CacheKeys.FamilyOfRender | src/main/java/com/ratingsandreviews/cache/CacheKeyBuilder.java:7-59 | the literal head of any built key names the builder that made it |
| CacheKeys.FamiliesDisjoint | src/main/java/com/ratingsandreviews/cache/CacheKeyBuilder.java:7-59 | keys from different builders never coincide |
| CacheKeys.UserCommentsKeyInjective | src/main/java/com/ratingsandreviews/cache/CacheKeyBuilder.java:7-10 | equal user-listing keys have equal application, user, sentiment, page and size |
| CacheKeys.CommentsKeyInjective | src/main/java/com/ratingsandreviews/cache/CacheKeyBuilder.java:16-20 | equal page keys have equal application, parent, sentiment, user, page and size |
| CacheKeys.RenderInjective | src/main/java/com/ratingsandreviews/cache/CacheKeyBuilder.java:7-55 | any two built keys (other than free-text application filters) are equal only when built from the same builder and arguments |
| CaffeineCache.CaffeineCacheService.constructor | src/main/java/com/ratingsandreviews/cache/CaffeineCacheService.java:12-20 | a new cache holds no entries |
| CaffeineCache.CaffeineCacheService.Get | src/main/java/com/ratingsandreviews/cache/CaffeineCacheService.java:35-41 | a value is returned iff the key is present and its value has the requested type; that value is the stored one |
| CaffeineCache.CaffeineCacheService.Put | src/main/java/com/ratingsandreviews/cache/CaffeineCacheService.java:44-46 | the key maps to the value and nothing else changes |
| CaffeineCache.CaffeineCacheService.Evict | src/main/java/com/ratingsandreviews/cache/CaffeineCacheService.java:49-51 | exactly the key is removed |
| CaffeineCache.CaffeineCacheService.EvictPattern | src/main/java/com/ratingsandreviews/cache/CaffeineCacheService.java:54-70 | exactly the keys the pattern matches are removed, by iterating over the resident keys |
| CaffeineCache.CaffeineCacheService.Clear | src/main/java/com/ratingsandreviews/cache/CaffeineCacheService.java:73-75 | the cache becomes empty |
| CaffeineCache.CaffeineCacheService.GetCacheType | src/main/java/com/ratingsandreviews/cache/CaffeineCacheService.java:78-80 | the type is `CAFFEINE` |
| CaffeineCache.LookupAfterPut | src/main/java/com/ratingsandreviews/cache/CaffeineCacheService.java:35-46 | after a put, a get of that key with the value's type returns the value, and gets of other keys are unaffected |
| CaffeineCache.EvictedByPrefix | src/main/java/com/ratingsandreviews/cache/CaffeineCacheService.java:65-69 | without `*`, a key survives iff it does not start with the pattern, and keeps its value |
| CaffeineCache.EvictedByGlob | src/main/java/com/ratingsandreviews/cache/CaffeineCacheService.java:56-64 | with `*`, a key survives iff it does not fully match the glob, and keeps its value |
| CaffeineCache.EvictedIdempotent | src/main/java/com/ratingsandreviews/cache/CaffeineCacheService.java:54-70 | evicting a pattern twice leaves what evicting it once leaves |
| CaffeineCache.StarAlone | src/main/java/com/ratingsandreviews/cache/CaffeineCacheService.java:58-60 | a lone `*` matches exactly the texts without line terminators |
| Invalidation.ListingsPrefixSelects | src/main/java/com/ratingsandreviews/comment/CommentServiceImpl.java:339 | the listings prefix matches a built key iff it is a user listing of that author in that application |
| Invalidation.PagesPatternSelects | src/main/java/com/ratingsandreviews/comment/CommentServiceImpl.java:343 | the pages glob matches a built key iff it is a comment page of that author in that application |
| Invalidation.WriteEvictsExactlyOwned | src/main/java/com/ratingsandreviews/comment/CommentServiceImpl.java:334-345 | a write's two patterns evict a built key iff it is one of the author's listings or pages in the application |
| Invalidation.WriteKeepsTree | src/main/java/com/ratingsandreviews/comment/CommentServiceImpl.java:334-374 | no write evicts any cached tree |
| Invalidation.ListingsPrefixNarrowsUserPattern | src/main/java/com/ratingsandreviews/cache/CacheKeyBuilder.java:12-14 | the write path's listings prefix extends the builder's user pattern |
| Invalidation.BuilderPatternSplit | src/main/java/com/ratingsandreviews/cache/CacheKeyBuilder.java:22-25 | the builder's page pattern is the page key's text up to the user id, with `*` for parent and sentiment, and no trailing wildcard |
| Invalidation.BuilderPatternSelectsNothing | src/main/java/com/ratingsandreviews/cache/CacheKeyBuilder.java:22-25 | used as a glob, the builder's page pattern fully matches no built key |
| Validations.ValidateOptionalExistence | src/main/java/com/ratingsandreviews/util/Validations.java:9-16 | success iff the optional is present, with its value unchanged; otherwise the not-found message |
| Validations.NotFoundMessageShape | src/main/java/com/ratingsandreviews/util/Validations.java:11-13 | the message is the simple name, then ` with identifier `, the identifier, and ` not found` |
| Validations.ValidateIgnoresLabels | src/main/java/com/ratingsandreviews/util/Validations.java:9-16 | on success the result does not depend on the class or identifier |
| Ratings.Rating.constructor | src/main/java/com/ratingsandreviews/rating/Rating.java:16-22 | a new rating holds no score |
| Ratings.Rating.SetRating | src/main/java/com/ratingsandreviews/rating/Rating.java:29-34 | a score in 1..5 is stored exactly; any other is rejected with the range message and leaves the score unchanged |
| Ratings.TruncDiv | src/main/java/com/ratingsandreviews/rating/RatingRepositoryWrapper.java:36 | Java's long division: the magnitude is the quotient of magnitudes and the sign follows the operands |
| Ratings.TruncDivOdd | src/main/java/com/ratingsandreviews/rating/RatingRepositoryWrapper.java:36 | negating either operand negates the quotient |
| Ratings.AverageOf | src/main/java/com/ratingsandreviews/rating/RatingRepositoryWrapper.java:22-39 | no stats give no average; all-zero counts make the division fail; otherwise the truncated quotient of the weighted sum by the count |
| Ratings.GetAvgByApplicationId | src/main/java/com/ratingsandreviews/rating/RatingRepositoryWrapper.java:22-39 | the accumulating loop returns `AverageOf` the stats |
| Ratings.SumsPermutation | src/main/java/com/ratingsandreviews/rating/RatingRepositoryWrapper.java:29-35 | both sums are the same for any reordering of the stats |
| Ratings.AverageOrderIndependent | src/main/java/com/ratingsandreviews/rating/RatingRepositoryWrapper.java:29-36 | the average does not depend on the order of the stats |
| Ratings.SumBounds | src/main/java/com/ratingsandreviews/rating/RatingRepositoryWrapper.java:27-35 | with scales in 1..5 and non-negative counts, count ≤ weighted sum ≤ 5·count |
| Ratings.AverageInRange | src/main/java/com/ratingsandreviews/rating/RatingRepositoryWrapper.java:22-39 | with scales in 1..5 and a positive total count, the average exists and lies in 1..5 |
| CommentModel.ApplyUpdate | src/main/java/com/ratingsandreviews/comment/CommentServiceImpl.java:143-145 | text replaced iff a new one is given; sentiment replaced iff one is given and the level is 0; the update time restamped; every other field unchanged |
| CommentModel.ApplyUpdateIdempotent | src/main/java/com/ratingsandreviews/event/CommentEventConsumer.java:64-79 | applying the same update twice gives the same record as once |
| CommentModel.MemberIdsExactly | src/main/java/com/ratingsandreviews/comment/CommentServiceImpl.java:77 | the thread-member ids are exactly the ids of the threads' contexts and targets |
| CommentModel.Ids | src/main/java/com/ratingsandreviews/comment/CommentServiceImpl.java:206 | the id set of a list holds exactly the ids of its comments |
| CommentModel.Offset | src/main/java/com/ratingsandreviews/comment/CommentServiceImpl.java:84 | a page's offset is its number times its size, non-negative and within `long` range |
| CommentStore.RowsExactly | src/main/java/com/ratingsandreviews/comment/CommentRepository.java:12-18 | a record is among the rows iff it is stored under its own id |
| CommentStore.RowsDistinct | src/main/java/com/ratingsandreviews/comment/CommentServiceImpl.java:206 | the rows have distinct ids, so building the id map cannot fail |
| CommentStore.Slice | src/main/java/com/ratingsandreviews/comment/CommentServiceImpl.java:84-87 | the intended page: empty iff the offset is past the end, at most the page size, starting with the element at the offset; an unpaged request yields everything |
| CommentStore.Query | src/main/java/com/ratingsandreviews/comment/CommentRepository.java:14-18 | a derived query's page holds only matches, at most a page size of them (all of them when unpaged), is empty exactly when the offset is past the last match, counts every match in its total, and that total survives the page object's adjustment |
| CommentStore.CommentRepository.FindById | src/main/java/com/ratingsandreviews/comment/CommentServiceImpl.java:114 | found iff the id is stored, with the stored record |
| CommentStore.CommentRepository.Save | src/main/java/com/ratingsandreviews/event/CommentEventConsumer.java:61 | the record is stored under its id, replacing any earlier one |
| CommentStore.CommentRepository.DeleteById | src/main/java/com/ratingsandreviews/event/CommentEventConsumer.java:82 | exactly the id is removed; a missing id is no error |
| CommentStore.LineageShape | src/main/java/com/ratingsandreviews/comment/CommentServiceImpl.java:301-307 | the ancestor chain holds stored records; each is the parent of the next; the last is the given parent; it is empty iff there is no parent or the parent is not stored; the walk stops at a root or a missing parent |
| CommentStore.LineageLevels | src/main/java/com/ratingsandreviews/comment/CommentServiceImpl.java:301-307 | levels strictly increase along the chain |
| CommentStore.LineageOfPart | src/main/java/com/ratingsandreviews/comment/CommentServiceImpl.java:301-307 | a sub-table holding the whole chain yields the same chain |
| CommentStore.AncestorPoolContents | src/main/java/com/ratingsandreviews/comment/CommentRepository.java:21-33 | the recursive query returns exactly the given comments and their stored ancestors |
| CommentStore.AncestorPoolStored | src/main/java/com/ratingsandreviews/comment/CommentRepository.java:21-33 | every pooled record is the stored record of its id |
| CommentStore.PoolMapContents | src/main/java/com/ratingsandreviews/comment/CommentServiceImpl.java:298 | the lookup built from the pool has exactly the pool's ids, each mapped to a pooled record of that id |
| CommentStore.PoolLineage | src/main/java/com/ratingsandreviews/comment/CommentServiceImpl.java:284-286 | rebuilding a comment's chain from the fetched pool gives its chain in the whole table |
| Threads.BuildLineageMap | src/main/java/com/ratingsandreviews/comment/CommentServiceImpl.java:297-311 | the prepending loop builds the map that sends each target's id to its chain in the pooled lookup |
| Threads.LineageMapLookup | src/main/java/com/ratingsandreviews/comment/CommentServiceImpl.java:300-309 | each target's id is mapped to the ancestry of that target's parent |
| Threads.LineageMapKeys | src/main/java/com/ratingsandreviews/comment/CommentServiceImpl.java:300-309 | the map has exactly the targets' ids as keys |
| Threads.ThreadsFrom | src/main/java/com/ratingsandreviews/comment/CommentServiceImpl.java:287-290 | one thread per target, in order, with that target |
| Threads.ThreadContextShape | src/main/java/com/ratingsandreviews/comment/CommentServiceImpl.java:297-311 | a thread's context runs from the root to the target's immediate parent through stored records; it is empty iff the target has no stored parent |
| Threads.ThreadsFromPool | src/main/java/com/ratingsandreviews/comment/CommentServiceImpl.java:284-290 | the threads rebuilt from the fetched pool equal the threads of the whole table |
| Merge.FindIn | src/main/java/com/ratingsandreviews/comment/CommentServiceImpl.java:65-68 | the lookup by id finds the first node with that id, and fails iff there is none |
| Merge.FindInStable | src/main/java/com/ratingsandreviews/comment/CommentServiceImpl.java:65-68 | a node once found keeps being found as the forest grows |
| Merge.StepFacts | src/main/java/com/ratingsandreviews/comment/CommentServiceImpl.java:67-75 | one step down a chain reuses the child with the next id, or appends one new clone, and leaves the roots as they were |
| Merge.RootStepFacts | src/main/java/com/ratingsandreviews/comment/CommentServiceImpl.java:64-65 | the root lookup reuses the root with the chain head's id, or adds one new root clone |
| Merge.InsertChainExtends | src/main/java/com/ratingsandreviews/comment/CommentServiceImpl.java:60-76 | inserting a chain only adds nodes and appends to children and roots |
| Merge.InsertThread | src/main/java/com/ratingsandreviews/comment/CommentServiceImpl.java:60-76 | the nested loop over one chain computes `InsertChain` |
| Merge.MergeThreads | src/main/java/com/ratingsandreviews/comment/CommentServiceImpl.java:57-78 | the loop over the threads computes `MergeAll` and collects exactly the member ids |
| Merge.MergeAllExtends | src/main/java/com/ratingsandreviews/comment/CommentServiceImpl.java:59-78 | processing later threads only extends the forest of the earlier ones |
| Merge.InsertChainLocates | src/main/java/com/ratingsandreviews/comment/CommentServiceImpl.java:60-76 | after insertion the chain can be followed by id from a root |
| Merge.EveryThreadLocated | src/main/java/com/ratingsandreviews/comment/CommentServiceImpl.java:59-78 | every thread's chain can be followed by id from a root of the merged forest |
| Merge.MergeAllUnique | src/main/java/com/ratingsandreviews/comment/CommentServiceImpl.java:65-74 | in the merged forest no two roots and no two children of one node share an id |
| Merge.RootIdsAfterInsert | src/main/java/com/ratingsandreviews/comment/CommentServiceImpl.java:64-65 | inserting a chain adds its head's id to the roots iff it was not there |
| Merge.RootsAreDistinctHeads | src/main/java/com/ratingsandreviews/comment/CommentServiceImpl.java:59-65 | the merged roots are the distinct chain heads, in order of first appearance |
| Merge.DedupMembers | src/main/java/com/ratingsandreviews/comment/CommentServiceImpl.java:59-65 | removing duplicates keeps exactly the elements |
| Merge.MergeAllClones | src/main/java/com/ratingsandreviews/comment/CommentServiceImpl.java:314-327 | every node of the merged forest is a copy of a comment of the threads, and there are no more nodes than thread comments |
| Merge.RootNodes | src/main/java/com/ratingsandreviews/comment/CommentServiceImpl.java:82 | one node per merged root, in root order, each carrying that root's comment |
| Merge.MergedListing | src/main/java/com/ratingsandreviews/comment/CommentServiceImpl.java:82-83 | the merged roots in order, followed by each other comment without children |
| Merge.RootsAreMembers | src/main/java/com/ratingsandreviews/comment/CommentServiceImpl.java:64-77 | every merged root's id is a thread member |
| Merge.OthersExactly | src/main/java/com/ratingsandreviews/comment/CommentServiceImpl.java:79-81 | the others are exactly the level-0 comments of the application's page outside the thread members, and none of them duplicates a merged root |
| Pagination.Wrap32 | src/main/java/com/ratingsandreviews/comment/CommentServiceImpl.java:84-85 | the narrowing cast: identity within `int` range, and always congruent modulo 2^32 |
| Pagination.SliceAsWritten | src/main/java/com/ratingsandreviews/comment/CommentServiceImpl.java:84-86 | the slicing as written: an unpaged request throws, and a result is never longer than the list |
| CommentStore.PageImplTotal | src/main/java/com/ratingsandreviews/comment/CommentServiceImpl.java:87 | the page object keeps the given total for unpaged requests and empty content |
| Pagination.SliceAsWrittenAgrees | src/main/java/com/ratingsandreviews/comment/CommentServiceImpl.java:84-86 | while offsets stay within `int` range, the slicing as written is the intended slice |
| Pagination.SliceKeepsTotal | src/main/java/com/ratingsandreviews/comment/CommentServiceImpl.java:84-87 | with the intended slice, the page reports the concatenated length as its total |
| Pagination.WrappedOffsetShowsFirstPage | src/main/java/com/ratingsandreviews/comment/CommentServiceImpl.java:84-87 | page 4194304 of size 1024 is served the first element and a total of 2^32 + 1, where the intended page is empty |
| Pagination.NegativeOffsetThrows | src/main/java/com/ratingsandreviews/comment/CommentServiceImpl.java:84-86 | page 2097152 of size 1024 makes the sublist call throw, where the intended page is empty |
| Pagination.PagesTile | src/main/java/com/ratingsandreviews/comment/CommentServiceImpl.java:84-86 | the first n pages of size z, one after the other, are the list's first n·z elements |
| CommentTree.Start | src/main/java/com/ratingsandreviews/comment/CommentServiceImpl.java:205-208 | assembly starts with no roots and an empty child list for every listed id |
| CommentTree.Attach | src/main/java/com/ratingsandreviews/comment/CommentServiceImpl.java:224-228 | attaching never adds or removes a child list |
| CommentTree.AttachTo | src/main/java/com/ratingsandreviews/comment/CommentServiceImpl.java:224-228 | the in-place step performs `Attach` |
| CommentTree.MembersPass | src/main/java/com/ratingsandreviews/comment/CommentServiceImpl.java:220-230 | the first pass attaches the thread members in list order and records exactly their ids as included |
| CommentTree.OthersPass | src/main/java/com/ratingsandreviews/comment/CommentServiceImpl.java:231-240 | the second pass attaches, in list order, every comment not included |
| CommentTree.AllPass | src/main/java/com/ratingsandreviews/comment/CommentServiceImpl.java:246-252 | the single pass attaches every comment in list order |
| CommentTree.AssembleTree | src/main/java/com/ratingsandreviews/comment/CommentServiceImpl.java:205-252 | the passes compute `TreeOf`: the members first and then the rest for a user, or the list order otherwise |
| CommentTree.IncludedExactly | src/main/java/com/ratingsandreviews/comment/CommentServiceImpl.java:221-233 | a listed comment is counted as included iff its id is a thread member |
| CommentTree.AttachAllRoots | src/main/java/com/ratingsandreviews/comment/CommentServiceImpl.java:224 | the roots grow by exactly the attached comments without a parent, in order |
| CommentTree.AttachAllChildren | src/main/java/com/ratingsandreviews/comment/CommentServiceImpl.java:225-228 | a child list grows by exactly the attached comments with that parent, in order |
| CommentTree.TreeShape | src/main/java/com/ratingsandreviews/comment/CommentServiceImpl.java:246-252 | the roots are the parentless comments in order; each listed comment's children are its replies in order |
| CommentTree.Placement | src/main/java/com/ratingsandreviews/comment/CommentServiceImpl.java:246-252 | a parentless comment is a root; a reply to a listed comment is among that comment's children; a reply to an unlisted comment appears nowhere |
| CommentTree.ScopedShape | src/main/java/com/ratingsandreviews/comment/CommentServiceImpl.java:209-243 | for a user, roots and child lists put the thread members first, then the others, each in list order |
| CommentTree.SplitKeepsSelection | src/main/java/com/ratingsandreviews/comment/CommentServiceImpl.java:220-240 | splitting into members and others neither loses nor duplicates a comment |
| CommentTree.ScopedSameAttachments | src/main/java/com/ratingsandreviews/comment/CommentServiceImpl.java:209-252 | the user's tree has the same roots and the same children of every comment as the plain tree, counted with multiplicity, so each comment is placed exactly once |
| EventConsumer.CreatedRecord | src/main/java/com/ratingsandreviews/event/CommentEventConsumer.java:50-61 | the record copies the event's fields with both timestamps set to the event's, and describing it as a creation event gives back the event |
| EventConsumer.StoreAfter | src/main/java/com/ratingsandreviews/event/CommentEventConsumer.java:24-83 | an event fails iff it is a creation without a level, with the processing failure |
| EventConsumer.CommentEventConsumer.HandleCreate | src/main/java/com/ratingsandreviews/event/CommentEventConsumer.java:50-62 | a creation stores, under the event's id, the record copied from the event, replacing any earlier one; a missing level throws before the save |
| EventConsumer.CommentEventConsumer.HandleUpdate | src/main/java/com/ratingsandreviews/event/CommentEventConsumer.java:64-79 | an update of a stored id stores the merged record, and one of an unknown id changes nothing |
| EventConsumer.CommentEventConsumer.HandleDelete | src/main/java/com/ratingsandreviews/event/CommentEventConsumer.java:81-83 | a deletion removes exactly the event's id |
| EventConsumer.CommentEventConsumer.ConsumeCommentEvent | src/main/java/com/ratingsandreviews/event/CommentEventConsumer.java:24-48 | dispatch performs `StoreAfter`; a failing handler is re-raised as the processing failure and leaves the table as it was |
| EventConsumer.StoreAfterLocal | src/main/java/com/ratingsandreviews/event/CommentEventConsumer.java:50-83 | an event changes at most the entry under its own id |
| EventConsumer.StoreAfterIdempotent | src/main/java/com/ratingsandreviews/event/CommentEventConsumer.java:50-83 | applying an event twice gives the table that applying it once gives |
| EventConsumer.CreatedRoundTrip | src/main/java/com/ratingsandreviews/comment/CommentServiceImpl.java:123-134 | the service's creation event makes the consumer store the new record, with its update time set to its creation time |
| EventConsumer.UpdatedRoundTrip | src/main/java/com/ratingsandreviews/comment/CommentServiceImpl.java:151-162 | the service's update event makes the consumer store exactly the record the service answered with |
| EventConsumer.DeletedRoundTrip | src/main/java/com/ratingsandreviews/comment/CommentServiceImpl.java:177-188 | the service's deletion event makes the consumer remove the record |
| EventConsumer.StoreAfterRanked | src/main/java/com/ratingsandreviews/event/CommentEventConsumer.java:50-83 | levels keep increasing along parent links across updates, deletions and creations with the service's levels |
| CommentService.CommentEventProducer.PublishEvent | src/main/java/com/ratingsandreviews/comment/CommentServiceImpl.java:134 | the event is appended to the published events |
| CommentService.AfterWriteExactly | src/main/java/com/ratingsandreviews/comment/CommentServiceImpl.java:334-405 | after a write, a built key is still cached iff it was cached and is not one of the author's listings or pages in the application, and it keeps its value |
| CommentService.UserThreads | src/main/java/com/ratingsandreviews/comment/CommentServiceImpl.java:277-291 | one thread per comment of the requested page of the user's comments, with all of the user's matching comments counted in the total |
| CommentService.UserThreadsContext | src/main/java/com/ratingsandreviews/comment/CommentServiceImpl.java:277-291 | each thread's target is one of the user's comments in the application, and its context is the target's stored ancestry |
| CommentService.Listing | src/main/java/com/ratingsandreviews/comment/CommentServiceImpl.java:79-87 | the user page's total is the number of merged roots plus the number of others |
| CommentService.ListingAsWrittenAgrees | src/main/java/com/ratingsandreviews/comment/CommentServiceImpl.java:84-86 | while offset plus size stays within `int` range, the as-written slicing of the merged list gives exactly the listing's content |
| CommentService.LaterPagesEmpty | src/main/java/com/ratingsandreviews/comment/CommentServiceImpl.java:57-87 | the merged list holds at most two pages (one page of threads, one of the application's comments) and is sliced at the page's offset again, so page index 2 and later are empty |
| CommentService.UserListingLaterPagesEmpty | src/main/java/com/ratingsandreviews/comment/CommentServiceImpl.java:57-87 | for a freshly built user listing, page index 2 and later of the user page are empty |
| CommentService.ListingShape | src/main/java/com/ratingsandreviews/comment/CommentServiceImpl.java:59-87 | the total counts the distinct thread heads and the others; the others are the page's level-0 comments outside the threads, none of them a merged root |
| CommentService.CommentService.UpdateCacheForWrite | src/main/java/com/ratingsandreviews/comment/CommentServiceImpl.java:334-405 | the cache loses exactly the entries the two write patterns match |
| CommentService.CommentService.AddComment | src/main/java/com/ratingsandreviews/comment/CommentServiceImpl.java:104-138 | a missing parent fails with the not-found message and changes nothing; otherwise the comment gets the new id and timestamps, level 0 for a root or the parent's level plus one, the author's listings are evicted, and exactly its creation event is published |
| CommentService.CommentService.UpdateComment | src/main/java/com/ratingsandreviews/comment/CommentServiceImpl.java:141-166 | an unknown id fails with the not-found message and changes nothing; otherwise the stored record under the update rule is returned, the author's listings are evicted, and exactly its update event is published |
| CommentService.CommentService.DeleteComment | src/main/java/com/ratingsandreviews/comment/CommentServiceImpl.java:169-191 | an unknown id fails with the not-found message and changes nothing; otherwise the author's listings are evicted and exactly a deletion event with the ids only is published |
| CommentService.CommentService.BuildUserThreads | src/main/java/com/ratingsandreviews/comment/CommentServiceImpl.java:277-291 | the query, the ancestor fetch and the lineage map give `UserThreads` |
| CommentService.CommentService.GetUserCommentsForApplication | src/main/java/com/ratingsandreviews/comment/CommentServiceImpl.java:258-295 | a cached listing is returned as is; otherwise the built listing is returned and cached unless it is empty; an unpaged request is keyed with -1 for page and size |
| CommentService.CommentService.GetComments | src/main/java/com/ratingsandreviews/comment/CommentServiceImpl.java:38-101 | without a user, the derived query's page, uncached; with a user, an unpaged request fails, a cached page is returned as is, and otherwise the merged listing's page is returned and cached together with the user's listing |
| CommentService.CommentService.GetCommentTree | src/main/java/com/ratingsandreviews/comment/CommentServiceImpl.java:194-255 | without a user, the plain tree of the application's comments; with a user, a cached tree, or the tree with the members of the user's unpaged threads first, which is then cached |

## Left out

- The Redis tier, the cache factory, Kafka, JSON serialisation, controllers, logging and database configuration: wiring, I/O and concurrency.
- Caffeine's 30-minute expiry and 10,000-entry bound: the cache is an unbounded map.
- The singleton and the double-checked locking of the cache service: concurrency.
- Random ids and clock readings: they are parameters of the writes.
- The database's row order: it is the parameter `order`, which lists each stored id once.
- The recursive ancestor query's own sort by id: the lookup built from it keeps the first record per id, and every record of an id is the same.
- `CommentService.CommentService.AddComment`: the source reads the clock twice, so creation and update time may differ. They are separate parameters here.
- `EventConsumer.CreatedRoundTrip`: the persisted record carries the creation time as its update time, as the lemma states.
- `CommentService.CommentService.UpdateComment`: the source sets fields on the entity it loaded and never saves it. Only the consumer writes the table, so the model leaves the table unchanged.
- Sharing of that loaded entity with the persistence context is not modelled.
- `CommentStore.Ranked`: the reads require the table's levels to increase along parent links. `buildLineageMap` has no depth bound and loops on a cyclic pool, and termination is not claimed beyond this precondition.
- `EventConsumer.StoreAfterRanked` shows that creations with the service's levels, updates and deletions keep the precondition.
- `CommentTree.AssembleTree`: building the id map throws on a duplicate id, which table rows never have. The model does not require distinct ids (`CommentStore.RowsDistinct` shows the rows have them).
- The children lists that `getCommentTree` appends to the loaded entities are not modelled. Entities reused across calls could accumulate children in the source. The model builds the tree as a value: a root list plus a child list per id.
- The `chain.isEmpty()` check in the merge: a chain always holds at least its target, so the check never fires.
- `Comment.level` and `CommentEvent.level` are Java `long`: levels are unbounded integers, and 64-bit overflow of `parent.level + 1` is not modelled.
- `Ratings.AverageOf`: the `long` sums do not wrap in the model. The conversion of the quotient to `double` is left out: the quotient is an integer and is returned as one.
- Null ids and null application ids: ids are always present in the model, and `UUID.fromString` parsing of the rating wrapper is out of scope.
- Regular-expression metacharacters other than `.` and `*` in an eviction pattern: the built keys and patterns never contain them, so `*` is modelled as "any text without line terminators" and every other character as itself.
- The tree cache key: no write evicts it (`Invalidation.WriteKeepsTree`).
- `CommentService.CommentService.GetComments`: the user page is cut from the merged list with the intended slice (`CommentStore.Slice`), not through the `(int)` cast of the offset. For offsets of 2^31 and more the source wraps or throws `IndexOutOfBoundsException` (and then caches nothing), where the model returns and caches the intended page. `CommentService.ListingAsWrittenAgrees` shows the two agree while offset plus size stays within `int` range; the as-written behaviour is in the Findings table.
- `CommentService.Listing`: builds the page with the intended slice, for the same reason as `GetComments`.
- `CacheKeys.ApplicationsPageKey`: it takes free-text filters, so it is excluded from `CacheKeys.RenderInjective`.
- The other builders' keys are still distinct from it by their family head.
- The ancestor query with an empty id list (every comment of the page is a root) returns nothing in the model. Whether the database accepts an empty `IN` list is not modelled.
- The rating wrapper's pass-through methods (`getCategoryStatsForApplication`, `saveRating`, `getRatingsByApplicationId`): each is a single delegating call. The stats list is the input of `Ratings.GetAvgByApplicationId`.
- The caller's comment object being left unmutated by the merge: the model works on values, so it holds by construction. `Merge.MergeAllClones` states where the clones come from.

## Findings

| source | as written | input that shows it | evidently intended | confidence | as-written member | corrected member |
|---|---|---|---|---|---|---|
| src/main/java/com/ratingsandreviews/comment/CommentServiceImpl.java:84-87 | `(int) pageable.getOffset()` narrows the `long` offset, so offsets of 2^31 and more wrap; `PageImpl` then reports a total built from the wrapped page | page 2097152 of size 1024 (offset 2^31) makes `subList` throw `IndexOutOfBoundsException`, even on an empty list; a one-comment list sliced at page 4194304 of size 1024 (offset 2^32) is answered with that comment and a total of 2^32 + 1 (the merged list reaches that length only with 2^32 application rows) | the page `[offset, min(offset + size, length))`, empty past the end, with the listing's length as total | not executed | Pagination.SliceAsWritten, Pagination.WrappedOffsetShowsFirstPage, Pagination.NegativeOffsetThrows | CommentStore.Slice, Pagination.SliceKeepsTotal |
