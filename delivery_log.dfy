/**
 * The delivery log (alert_delivery_log): one row per attempt to deliver an alert on a channel,
 * inserted by the first attempt and updated in place by retries.
 */
module DeliveryLog {
  import opened Wrappers

  datatype Status = Pending | Sent | Failed

  /**
   * A stored row. `createdAt` is the row's creation stamp; the model numbers rows in insertion
   * order, so later rows have larger stamps. `deliveryTime` is the clock value of the send.
   */
  datatype DeliveryRow = DeliveryRow(
    alertId: nat,
    userId: int,
    channelType: string,
    status: Status,
    deliveryTime: Option<int>,
    errorMessage: Option<string>,
    externalMessageId: Option<string>,
    retryCount: nat,
    createdAt: nat)

  /** The `LIMIT` of the failed-delivery query. */
  const FailedQueryLimit: nat := 100

  /** `status === 'sent' ? new Date() : null`, with the clock value `at`. */
  function DeliveryTime(status: Status, at: int): Option<int> {
    if status == Sent then Some(at) else None
  }

  /** The row `logDeliveryAttempt` inserts. */
  function Inserted(alertId: nat, userId: int, kind: string, status: Status, error: Option<string>,
                    externalId: Option<string>, at: int, createdAt: nat): (r: DeliveryRow)
    ensures HasKey(r, alertId, kind) && r.userId == userId && r.status == status && r.createdAt == createdAt
    ensures r.retryCount == 0
    ensures r.deliveryTime.Some? <==> status == Sent
    ensures r.deliveryTime.Some? ==> r.deliveryTime.value == at
    ensures Truthy(error) <==> r.errorMessage.Some?
    ensures Truthy(externalId) <==> r.externalMessageId.Some?
    ensures r.errorMessage.Some? ==> r.errorMessage == error
    ensures r.externalMessageId.Some? ==> r.externalMessageId == externalId
  {
    DeliveryRow(alertId, userId, kind, status, DeliveryTime(status, at), OrNull(error), OrNull(externalId), 0, createdAt)
  }

  predicate HasKey(row: DeliveryRow, alertId: nat, kind: string) {
    row.alertId == alertId && row.channelType == kind
  }

  /** The SET list of `updateDeliveryStatus`, applied to one matching row. */
  function Bumped(row: DeliveryRow, status: Status, error: Option<string>, externalId: Option<string>, at: int): DeliveryRow {
    row.(status := status, deliveryTime := DeliveryTime(status, at), errorMessage := OrNull(error),
         externalMessageId := OrNull(externalId), retryCount := row.retryCount + 1)
  }

  /** `UPDATE ... WHERE alert_id = alertId AND channel_type = kind`: every matching row, in place. */
  function UpdateMatching(rows: seq<DeliveryRow>, alertId: nat, kind: string, status: Status,
                          error: Option<string>, externalId: Option<string>, at: int): (r: seq<DeliveryRow>)
    ensures |r| == |rows|
    ensures forall i :: 0 <= i < |rows| && !HasKey(rows[i], alertId, kind) ==> r[i] == rows[i]
    ensures forall i :: 0 <= i < |rows| && HasKey(rows[i], alertId, kind) ==>
      && r[i].retryCount == rows[i].retryCount + 1
      && r[i].status == status
      && r[i].alertId == rows[i].alertId && r[i].userId == rows[i].userId
      && r[i].channelType == rows[i].channelType && r[i].createdAt == rows[i].createdAt
      && r[i].deliveryTime == DeliveryTime(status, at)
      && r[i].errorMessage == OrNull(error) && r[i].externalMessageId == OrNull(externalId)
      && r[i] == Bumped(rows[i], status, error, externalId, at)
  {
    seq(|rows|, i requires 0 <= i < |rows| =>
      if HasKey(rows[i], alertId, kind) then Bumped(rows[i], status, error, externalId, at) else rows[i])
  }

  /** `delivery_time` is set exactly on the rows whose status is sent. */
  ghost predicate TimeIffSent(rows: seq<DeliveryRow>) {
    forall i :: 0 <= i < |rows| ==> (rows[i].deliveryTime.Some? <==> rows[i].status == Sent)
  }

  /** Rows are stored in creation order. */
  ghost predicate Chronological(rows: seq<DeliveryRow>) {
    forall i, j :: 0 <= i < j < |rows| ==> rows[i].createdAt < rows[j].createdAt
  }

  /** Newest first, as `ORDER BY created_at DESC` lists them. */
  ghost predicate NewestFirst(rows: seq<DeliveryRow>) {
    forall i, j :: 0 <= i < j < |rows| ==> rows[i].createdAt > rows[j].createdAt
  }

  /** Every failed row carries an error message. */
  ghost predicate FailuresExplained(rows: seq<DeliveryRow>) {
    forall i :: 0 <= i < |rows| && rows[i].status == Failed ==> rows[i].errorMessage.Some?
  }

  /** At most one row per (alert, channel type). */
  ghost predicate UniqueKeys(rows: seq<DeliveryRow>) {
    forall i, j :: 0 <= i < j < |rows| ==>
      rows[i].alertId != rows[j].alertId || rows[i].channelType != rows[j].channelType
  }

  /** `delivery_status = 'failed' AND retry_count < maxRetries`. */
  predicate Retryable(row: DeliveryRow, maxRetries: int) {
    row.status == Failed && row.retryCount < maxRetries
  }

  /** The newest `limit` retryable rows, newest first. */
  function NewestRetryable(rows: seq<DeliveryRow>, maxRetries: int, limit: nat): (r: seq<DeliveryRow>)
    ensures |r| <= limit
    ensures forall x :: x in r ==> x in rows && Retryable(x, maxRetries)
    ensures Chronological(rows) ==> NewestFirst(r)
    decreases |rows|
  {
    if rows == [] || limit == 0 then []
    else
      var last := rows[|rows| - 1];
      var older := rows[..|rows| - 1];
      if Retryable(last, maxRetries) then
        var rest := NewestRetryable(older, maxRetries, limit - 1);
        OlderRowsAreEarlier(rows, rest);
        [last] + rest
      else NewestRetryable(older, maxRetries, limit)
  }

  /** Every row of the table but the last was created before the last. */
  lemma OlderRowsAreEarlier(rows: seq<DeliveryRow>, rest: seq<DeliveryRow>)
    requires rows != []
    requires forall y :: y in rest ==> y in rows[..|rows| - 1]
    ensures Chronological(rows) ==> Chronological(rows[..|rows| - 1])
    ensures Chronological(rows) ==> forall y :: y in rest ==> y.createdAt < rows[|rows| - 1].createdAt
  {
    if Chronological(rows) {
      forall y | y in rest ensures y.createdAt < rows[|rows| - 1].createdAt {
        var i :| 0 <= i < |rows| - 1 && rows[..|rows| - 1][i] == y;
        assert rows[i] == y;
      }
    }
  }

  /** `getFailedDeliveries(maxRetries)`. */
  function FailedDeliveries(rows: seq<DeliveryRow>, maxRetries: int): (r: seq<DeliveryRow>)
    ensures |r| <= FailedQueryLimit
    ensures forall x :: x in r ==> x in rows && x.status == Failed && x.retryCount < maxRetries
    ensures Chronological(rows) ==> NewestFirst(r)
  {
    NewestRetryable(rows, maxRetries, FailedQueryLimit)
  }

  /** `getDeliveryStatus(alertId)`: the alert's rows, oldest first. */
  function DeliveryStatus(rows: seq<DeliveryRow>, alertId: nat): (r: seq<DeliveryRow>)
    ensures forall x :: x in r <==> x in rows && x.alertId == alertId
    ensures Chronological(rows) ==> Chronological(r)
    decreases |rows|
  {
    if rows == [] then []
    else
      var last := rows[|rows| - 1];
      var earlier := DeliveryStatus(rows[..|rows| - 1], alertId);
      OlderRowsAreEarlier(rows, earlier);
      earlier + (if last.alertId == alertId then [last] else [])
  }

  /**
   * A retryable row left out of the failed-delivery query is older than every row the query
   * returns, and the query is then full: the query keeps the newest retryable rows.
   */
  lemma {:induction false} NewestRetryableKeepsNewest(rows: seq<DeliveryRow>, maxRetries: int, limit: nat, x: DeliveryRow)
    requires Chronological(rows)
    requires x in rows && Retryable(x, maxRetries)
    requires x !in NewestRetryable(rows, maxRetries, limit)
    ensures |NewestRetryable(rows, maxRetries, limit)| == limit
    ensures forall y :: y in NewestRetryable(rows, maxRetries, limit) ==> x.createdAt < y.createdAt
    decreases |rows|
  {
    if limit > 0 {
      var n := |rows| - 1;
      var last := rows[n];
      var older := rows[..n];
      assert x != last;
      var i :| 0 <= i < |rows| && rows[i] == x;
      assert i < n && older[i] == x;
      assert x.createdAt < last.createdAt;
      assert Chronological(older) by {
        forall a, b | 0 <= a < b < n ensures older[a].createdAt < older[b].createdAt {
          assert older[a] == rows[a] && older[b] == rows[b];
        }
      }
      if Retryable(last, maxRetries) {
        var rest := NewestRetryable(older, maxRetries, limit - 1);
        assert NewestRetryable(rows, maxRetries, limit) == [last] + rest;
        NewestRetryableKeepsNewest(older, maxRetries, limit - 1, x);
      } else {
        assert NewestRetryable(rows, maxRetries, limit) == NewestRetryable(older, maxRetries, limit);
        NewestRetryableKeepsNewest(older, maxRetries, limit, x);
      }
    }
  }

  /** `getFailedDeliveries` returns every retryable row when there are at most 100 of them, and otherwise the 100 newest. */
  lemma FailedDeliveriesKeepsNewest(rows: seq<DeliveryRow>, maxRetries: int, x: DeliveryRow)
    requires Chronological(rows)
    requires x in rows && x.status == Failed && x.retryCount < maxRetries
    ensures x !in FailedDeliveries(rows, maxRetries) ==>
      |FailedDeliveries(rows, maxRetries)| == FailedQueryLimit &&
      forall y :: y in FailedDeliveries(rows, maxRetries) ==> x.createdAt < y.createdAt
  {
    if x !in FailedDeliveries(rows, maxRetries) {
      NewestRetryableKeepsNewest(rows, maxRetries, FailedQueryLimit, x);
    }
  }

  /** Once a delivery is updated to sent, the failed-delivery query no longer lists it. */
  lemma SentLeavesFailedQuery(rows: seq<DeliveryRow>, alertId: nat, kind: string, externalId: Option<string>,
                              at: int, maxRetries: int)
    ensures var rows' := UpdateMatching(rows, alertId, kind, Sent, None, externalId, at);
      forall x :: x in FailedDeliveries(rows', maxRetries) ==> !HasKey(x, alertId, kind)
  {
    var rows' := UpdateMatching(rows, alertId, kind, Sent, None, externalId, at);
    forall x | x in FailedDeliveries(rows', maxRetries) ensures !HasKey(x, alertId, kind) {
      var i :| 0 <= i < |rows'| && rows'[i] == x;
      assert rows'[i].status == Failed;
    }
  }

  /** Inserting a row keeps `delivery_time` set exactly on sent rows. */
  lemma InsertKeepsTimeIffSent(rows: seq<DeliveryRow>, alertId: nat, userId: int, kind: string, status: Status,
                               error: Option<string>, externalId: Option<string>, at: int, createdAt: nat)
    requires TimeIffSent(rows)
    ensures TimeIffSent(rows + [Inserted(alertId, userId, kind, status, error, externalId, at, createdAt)])
  {
  }

  /** Updating keeps `delivery_time` set exactly on sent rows, and keeps the keys and creation order. */
  lemma UpdateKeepsInvariants(rows: seq<DeliveryRow>, alertId: nat, kind: string, status: Status,
                              error: Option<string>, externalId: Option<string>, at: int)
    ensures var rows' := UpdateMatching(rows, alertId, kind, status, error, externalId, at);
      && (TimeIffSent(rows) ==> TimeIffSent(rows'))
      && (Chronological(rows) ==> Chronological(rows'))
      && (UniqueKeys(rows) ==> UniqueKeys(rows'))
  {
  }

  class DeliveryLogStore {
    var rows: seq<DeliveryRow>
    /** The creation stamp the next inserted row gets. */
    var nextStamp: nat

    ghost predicate Valid()
      reads this
    {
      && TimeIffSent(rows)
      && Chronological(rows)
      && forall i :: 0 <= i < |rows| ==> rows[i].createdAt < nextStamp
    }

    constructor ()
      ensures Valid() && rows == []
    {
      rows := [];
      nextStamp := 0;
    }

    /** `logDeliveryAttempt`: insert one row with `retry_count = 0`. */
    method LogDeliveryAttempt(alertId: nat, userId: int, kind: string, status: Status,
                              error: Option<string>, externalId: Option<string>, at: int)
      requires Valid()
      modifies this
      ensures Valid()
      ensures rows == old(rows) + [Inserted(alertId, userId, kind, status, error, externalId, at, old(nextStamp))]
      ensures nextStamp == old(nextStamp) + 1
    {
      InsertKeepsTimeIffSent(rows, alertId, userId, kind, status, error, externalId, at, nextStamp);
      rows := rows + [Inserted(alertId, userId, kind, status, error, externalId, at, nextStamp)];
      nextStamp := nextStamp + 1;
    }

    /** `updateDeliveryStatus`: overwrite every row of (alertId, kind) and bump its retry count. */
    method UpdateDeliveryStatus(alertId: nat, kind: string, status: Status,
                                error: Option<string>, externalId: Option<string>, at: int)
      requires Valid()
      modifies this
      ensures Valid()
      ensures rows == UpdateMatching(old(rows), alertId, kind, status, error, externalId, at)
      ensures nextStamp == old(nextStamp)
    {
      UpdateKeepsInvariants(rows, alertId, kind, status, error, externalId, at);
      rows := UpdateMatching(rows, alertId, kind, status, error, externalId, at);
    }
  }
}
