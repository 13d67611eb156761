/**
 The outbox table of the identity service, the routing of its events, and what
 its two queries promise (services/identity/src/outbox/db.rs, publisher.rs).
 */
module Outbox {
  import opened Basics

  type EventId = nat

  /** The AuthEmailMessage a row's payload encodes. `key` is its idempotency key. */
  datatype Message = Message(key: EventId, recipient: string, body: string)

  datatype OutboxRow = OutboxRow(id: EventId, eventType: string, payload: Message, createdAt: int)

  /** A stored row; `published` says that `published_at` is set. */
  datatype Stored = Stored(row: OutboxRow, published: bool)

  type Table = map<EventId, Stored>

  datatype OutboxError = UnknownEventType(eventType: string)

  function RouteTopic(eventType: string): Result<string, OutboxError> {
    if eventType == "auth_email" then Ok("email.auth") else Err(UnknownEventType(eventType))
  }

  predicate Routable(row: OutboxRow) {
    RouteTopic(row.eventType).Ok?
  }

  predicate Unpublished(table: Table, id: EventId) {
    id in table && !table[id].published
  }

  /** The event is committed, its type has a topic, and it was created before `row`. */
  predicate OlderRoutable(table: Table, id: EventId, row: OutboxRow) {
    id in table && Routable(table[id].row) && table[id].row.createdAt < row.createdAt
  }

  /** The row is stored exactly as given. */
  predicate Committed(table: Table, row: OutboxRow) {
    row.id in table && table[row.id].row == row
  }

  predicate Lists(rows: seq<OutboxRow>, id: EventId) {
    exists i | 0 <= i < |rows| :: rows[i].id == id
  }

  predicate DistinctIds(rows: seq<OutboxRow>) {
    forall i, j | 0 <= i < j < |rows| :: rows[i].id != rows[j].id
  }

  predicate SortedByCreation(rows: seq<OutboxRow>) {
    forall i, j | 0 <= i < j < |rows| :: rows[i].createdAt <= rows[j].createdAt
  }

  /**
   What `fetch_unpublished` may return: at most `limit` unpublished rows in
   creation order, and an unpublished row is left out only when the limit is
   used up by rows that are no newer. Ties may be broken either way.
   */
  predicate IsBatch(table: Table, limit: nat, batch: seq<OutboxRow>) {
    && |batch| <= limit
    && (forall i | 0 <= i < |batch| :: Committed(table, batch[i]) && !table[batch[i].id].published)
    && DistinctIds(batch)
    && SortedByCreation(batch)
    && forall id | id in table && Unpublished(table, id) && !Lists(batch, id) ::
         |batch| == limit && forall i | 0 <= i < |batch| :: batch[i].createdAt <= table[id].row.createdAt
  }

  function MarkPublished(table: Table, id: EventId): Table {
    if id in table then table[id := table[id].(published := true)] else table
  }
}
