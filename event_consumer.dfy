/**
 * The persistence side of comment writes: each event taken from the topic
 * is one transition of the comment table. A creation inserts or replaces
 * the record under the event's id, an update merges the event's fields into
 * the stored record when there is one, and a deletion removes the id.
 */
module EventConsumer {
  import opened Wrappers
  import opened Text
  import opened CommentModel
  import opened CommentStore

  /** The error the consumer raises, so that the event is not taken as processed. */
  const ProcessingFailure := "Failed to process comment event"

  /** The record a creation event describes, with both timestamps set to the event's. */
  function CreatedRecord(e: CommentEvent): (c: Comment)
    requires e.level.Some?
    ensures c.id == e.commentId && c.level == e.level.value
    ensures c.createdAt == e.timestamp && c.updatedAt == e.timestamp
    ensures CreatedEvent(c) == e.(eventType := Created)
  {
    Comment(e.commentId, e.applicationId, e.userId, e.text, e.sentiment, e.level.value, e.parentId, e.timestamp, e.timestamp)
  }

  /**
   * The table after one event, or a failure when the handler throws: a
   * creation without a level fails on unboxing it. An update of an unknown
   * id changes nothing, and a deletion of an unknown id neither.
   */
  function StoreAfter(rows: Store, e: CommentEvent): (r: Result<Store, string>)
    ensures r.Failure? <==> e.eventType.Created? && e.level.None?
    ensures r.Failure? ==> r.error == ProcessingFailure
  {
    match e.eventType
    case Created =>
      if e.level.None? then Failure(ProcessingFailure) else Success(rows[e.commentId := CreatedRecord(e)])
    case Updated =>
      if e.commentId in rows then
        Success(rows[e.commentId := ApplyUpdate(rows[e.commentId], e.text, e.sentiment, e.timestamp)])
      else Success(rows)
    case Deleted => Success(rows - {e.commentId})
  }

  class CommentEventConsumer {
    const repository: CommentRepository

    constructor(repository: CommentRepository)
      ensures this.repository == repository
    {
      this.repository := repository;
    }

    /** Copies the event's fields into a new record and saves it; a missing level throws before the save. */
    method HandleCreate(e: CommentEvent) returns (o: Outcome<string>)
      requires e.eventType.Created? && repository.Valid()
      modifies repository
      ensures repository.Valid()
      ensures o.Pass? <==> e.level.Some?
      ensures o.Pass? ==> repository.rows == old(repository.rows)[e.commentId := CreatedRecord(e)]
      ensures o.Fail? ==> repository.rows == old(repository.rows)
    {
      if e.level.None? {
        return Fail("NullPointerException");
      }
      var comment := Comment(e.commentId, e.applicationId, e.userId, e.text, e.sentiment, e.level.value,
        e.parentId, e.timestamp, e.timestamp);
      repository.Save(comment);
      return Pass;
    }

    /** Merges the event into the stored record and saves it back; an unknown id is only logged. */
    method HandleUpdate(e: CommentEvent)
      requires repository.Valid()
      modifies repository
      ensures repository.Valid()
      ensures e.commentId in old(repository.rows) ==>
        repository.rows ==
        old(repository.rows)[e.commentId := ApplyUpdate(old(repository.rows)[e.commentId], e.text, e.sentiment, e.timestamp)]
      ensures e.commentId !in old(repository.rows) ==> repository.rows == old(repository.rows)
    {
      var existingOpt := repository.FindById(e.commentId);
      if existingOpt.Some? {
        var existing := existingOpt.value;
        if e.text.Some? {
          existing := existing.(text := e.text);
        }
        if e.sentiment.Some? && existing.level == 0 {
          existing := existing.(sentiment := e.sentiment);
        }
        existing := existing.(updatedAt := e.timestamp);
        assert existing == ApplyUpdate(existingOpt.value, e.text, e.sentiment, e.timestamp);
        repository.Save(existing);
      }
    }

    method HandleDelete(e: CommentEvent)
      requires repository.Valid()
      modifies repository
      ensures repository.Valid()
      ensures repository.rows == old(repository.rows) - {e.commentId}
    {
      repository.DeleteById(e.commentId);
    }

    /** Dispatches on the event type; a handler's failure is re-raised as the processing failure. */
    method ConsumeCommentEvent(e: CommentEvent) returns (o: Outcome<string>)
      requires repository.Valid()
      modifies repository
      ensures repository.Valid()
      ensures o.Pass? <==> StoreAfter(old(repository.rows), e).Success?
      ensures o.Pass? ==> repository.rows == StoreAfter(old(repository.rows), e).value
      ensures o.Fail? ==> o.error == ProcessingFailure && repository.rows == old(repository.rows)
    {
      match e.eventType {
        case Created =>
          var handled := HandleCreate(e);
          if handled.Fail? {
            return Fail(ProcessingFailure);
          }
        case Updated =>
          HandleUpdate(e);
        case Deleted =>
          HandleDelete(e);
      }
      return Pass;
    }
  }

  /** An event touches at most the entry under its own id. */
  lemma StoreAfterLocal(rows: Store, e: CommentEvent, id: Uuid)
    requires StoreAfter(rows, e).Success? && id != e.commentId
    ensures id in StoreAfter(rows, e).value <==> id in rows
    ensures id in rows ==> StoreAfter(rows, e).value[id] == rows[id]
  {
  }

  /** Applying an event a second time changes nothing: redelivery is harmless. */
  lemma StoreAfterIdempotent(rows: Store, e: CommentEvent)
    requires StoreAfter(rows, e).Success?
    ensures StoreAfter(StoreAfter(rows, e).value, e) == StoreAfter(rows, e)
  {
    var after := StoreAfter(rows, e).value;
    match e.eventType
    case Created =>
      assert after[e.commentId := CreatedRecord(e)] == after;
    case Updated =>
      if e.commentId in rows {
        ApplyUpdateIdempotent(rows[e.commentId], e.text, e.sentiment, e.timestamp);
        assert after[e.commentId := after[e.commentId]] == after;
      }
    case Deleted =>
      assert after - {e.commentId} == after;
  }

  /**
   * The creation event of a record stores that record, except that its
   * update time becomes its creation time.
   */
  lemma CreatedRoundTrip(rows: Store, c: Comment)
    ensures StoreAfter(rows, CreatedEvent(c)) == Success(rows[c.id := c.(updatedAt := c.createdAt)])
  {
  }

  /**
   * The update event of a record updated from the stored one stores exactly
   * that updated record: merging the event's fields into the stored record
   * reproduces the update.
   */
  lemma UpdatedRoundTrip(rows: Store, id: Uuid, text: Option<string>, sentiment: Option<Short>, at: Timestamp)
    requires id in rows && rows[id].id == id
    ensures var updated := ApplyUpdate(rows[id], text, sentiment, at);
      StoreAfter(rows, UpdatedEvent(updated)) == Success(rows[id := updated])
  {
  }

  /** The deletion event of a record removes it. */
  lemma DeletedRoundTrip(rows: Store, c: Comment, now: Timestamp)
    ensures StoreAfter(rows, DeletedEvent(c, now)) == Success(rows - {c.id})
  {
  }

  /**
   * The table stays ranked across events: deletions and updates keep it so,
   * and so does the creation of a reply one level below a stored parent (or
   * of a root at level 0) under an id nothing points to yet.
   */
  lemma StoreAfterRanked(rows: Store, e: CommentEvent)
    requires Ranked(rows) && StoreAfter(rows, e).Success?
    requires e.eventType.Created? ==>
      e.commentId !in rows && (forall id :: id in rows ==> rows[id].parentId != Some(e.commentId)) &&
      (e.parentId.None? ==> e.level == Some(0)) &&
      (e.parentId.Some? ==> e.parentId.value in rows && e.level == Some(rows[e.parentId.value].level + 1))
    ensures Ranked(StoreAfter(rows, e).value)
  {
  }
}
