/** The outbox row: an event waiting to be relayed, flagged once published. */
module OutboxMessages {
  import opened Common

  /** An outbox message as stored in the OutboxMessages table. */
  datatype OutboxRow = OutboxRow(
    id: Guid, eventType: string, payload: Payload, occurredAt: Timestamp,
    published: bool, publishedAt: Option<Timestamp>)
  {
    /** PublishedAt is set exactly when the row is flagged as published. */
    predicate WellFormed() { published == publishedAt.Some? }
  }

  /** MarkAsPublished on a stored row. */
  function MarkPublishedRow(r: OutboxRow, now: Timestamp): (m: OutboxRow)
    ensures SameMessage(m, r)
    ensures m.published && m.publishedAt == Some(now) && m.WellFormed()
  {
    r.(published := true, publishedAt := Some(now))
  }

  /** The fields MarkAsPublished never touches. */
  predicate SameMessage(a: OutboxRow, b: OutboxRow)
  {
    a.id == b.id && a.eventType == b.eventType && a.payload == b.payload && a.occurredAt == b.occurredAt
  }

  /** Marking keeps the message and the invariant; marking again keeps the row
      published and only moves the timestamp. */
  lemma MarkPublishedFacts(r: OutboxRow, t1: Timestamp, t2: Timestamp)
    ensures SameMessage(MarkPublishedRow(r, t1), r)
    ensures MarkPublishedRow(r, t1).WellFormed() && MarkPublishedRow(r, t1).published
    ensures MarkPublishedRow(MarkPublishedRow(r, t1), t2) == MarkPublishedRow(r, t2)
  {
  }

  /** The primary key: no two rows of a table share an id. */
  ghost predicate UniqueIds(t: seq<OutboxRow>)
  {
    forall i, j :: 0 <= i < |t| && 0 <= j < |t| && t[i].id == t[j].id ==> i == j
  }

  /** The invariant of an outbox table. */
  ghost predicate TableWellFormed(t: seq<OutboxRow>)
  {
    UniqueIds(t) && forall r :: r in t ==> r.WellFormed()
  }

  /** `id` is not yet used in the table (a fresh Guid.NewGuid()). */
  ghost predicate FreshId(t: seq<OutboxRow>, id: Guid)
  {
    forall r :: r in t ==> r.id != id
  }

  /** The ids in use in an outbox table. */
  function OutboxIds(t: seq<OutboxRow>): (ids: set<Guid>)
    ensures forall id :: id in ids <==> !FreshId(t, id)
  {
    set r | r in t :: r.id
  }

  /** Appending a well-formed row under a fresh id keeps the table well formed. */
  lemma AppendKeepsTable(t: seq<OutboxRow>, r: OutboxRow)
    requires TableWellFormed(t) && FreshId(t, r.id) && r.WellFormed()
    ensures TableWellFormed(t + [r])
  {
  }

  /** An outbox message object: the message is fixed at construction, only the
      published flag and its time change. */
  class OutboxMessage {
    const id: Guid
    const eventType: string
    const payload: Payload
    const occurredAt: Timestamp
    var published: bool
    var publishedAt: Option<Timestamp>

    ghost predicate Valid()
      reads this
    {
      Row().WellFormed()
    }

    /** The row SaveChanges would store for this object. */
    function Row(): OutboxRow
      reads this
    {
      OutboxRow(id, eventType, payload, occurredAt, published, publishedAt)
    }

    /** A new unpublished message. `id` stands for Guid.NewGuid() and `now` for
        DateTime.UtcNow. */
    constructor (id: Guid, eventType: string, payload: Payload, now: Timestamp)
      ensures Valid()
      ensures !published && publishedAt == None
      ensures Row() == OutboxRow(id, eventType, payload, now, false, None)
    {
      this.id := id;
      this.eventType := eventType;
      this.payload := payload;
      this.occurredAt := now;
      this.published := false;
      this.publishedAt := None;
    }

    /** The object the store materialises from a row. */
    constructor Load(row: OutboxRow)
      requires row.WellFormed()
      ensures Valid() && Row() == row
    {
      id := row.id;
      eventType := row.eventType;
      payload := row.payload;
      occurredAt := row.occurredAt;
      published := row.published;
      publishedAt := row.publishedAt;
    }

    /** Flags the message as published at `now`, whatever it was before. */
    method MarkAsPublished(now: Timestamp)
      requires Valid()
      modifies this
      ensures Valid()
      ensures published && publishedAt == Some(now)
      ensures Row() == MarkPublishedRow(old(Row()), now)
    {
      published := true;
      publishedAt := Some(now);
    }
  }
}
