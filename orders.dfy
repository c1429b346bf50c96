/** Rows of the `orders` table and the pure parts of its HTTP handler:
    the status derived from a completed quantity, the listing of GET, and the
    two `UPDATE` statements of PUT. The handler itself is
    `Backend.Database.HandleOrders`. */
module Orders {
  import opened Common

  /** A row of `orders`. `createdAt` is the insertion counter that stands for
      the `created_at` timestamp. Columns the handler inserts from a JSON key
      read without a default are nullable. */
  datatype Order = Order(
    id: int,
    orderNumber: Option<string>,
    material: Option<string>,
    quantity: Option<int>,
    size: string,
    color: string,
    status: string,
    completed: int,
    createdBy: Option<int>,
    createdAt: nat)

  /** The JSON body of a POST or PUT; `None` is an absent key. */
  datatype OrderBody = OrderBody(
    id: Option<int>,
    orderNumber: Option<string>,
    material: Option<string>,
    quantity: Option<int>,
    size: Option<string>,
    color: Option<string>,
    createdBy: Option<int>,
    completedQuantity: Option<int>,
    status: Option<string>)

  /** The status a progress update stores, from the completed count and the
      ordered quantity alone: the prior status plays no part. */
  function DerivedStatus(completed: int, total: int): (s: string)
    ensures s == "completed" <==> completed >= total
    ensures s == "in_progress" <==> 0 < completed < total
    ensures s == "created" <==> completed <= 0 && completed < total
  {
    if completed >= total then "completed"
    else if completed > 0 then "in_progress"
    else "created"
  }

  /** Progress through the three derived statuses, as a number. */
  function StatusRank(s: string): int
  {
    if s == "created" then 0 else if s == "in_progress" then 1 else 2
  }

  /** More completed items never derive an earlier status. */
  lemma DerivedStatusMonotone(c1: int, c2: int, total: int)
    requires c1 <= c2
    ensures StatusRank(DerivedStatus(c1, total)) <= StatusRank(DerivedStatus(c2, total))
  {
  }

  function CreatedAt(o: Order): int
  {
    o.createdAt
  }

  function IdOf(o: Order): int
  {
    o.id
  }

  /** Rows in insertion order: `created_at` strictly increases along the table. */
  predicate Chronological(rows: seq<Order>)
  {
    IncreasingBy(rows, CreatedAt)
  }

  /** The GET query parameter filters only when it is a non-empty string. */
  predicate Filters(status: Option<string>)
  {
    status.Some? && status.value != ""
  }

  function WithStatus(rows: seq<Order>, status: string): (r: seq<Order>)
    ensures forall o :: o in r <==> o in rows && o.status == status
  {
    FilterBy(rows, (o: Order) => o.status == status)
  }

  /** GET: the rows with the requested status, or all rows, newest first. */
  function Listing(rows: seq<Order>, status: Option<string>): (r: seq<Order>)
    ensures Filters(status) ==> forall o :: o in r <==> o in rows && o.status == status.value
    ensures Filters(status) ==> r == Reverse(WithStatus(rows, status.value))
    ensures !Filters(status) ==> r == Reverse(rows)
  {
    var kept := if Filters(status) then WithStatus(rows, status.value) else rows;
    ReverseMembers(kept);
    Reverse(kept)
  }

  /** `ORDER BY created_at DESC`: when the table is in insertion order, GET
      lists the newest row first. */
  lemma ListingNewestFirst(rows: seq<Order>, status: Option<string>)
    requires Chronological(rows)
    ensures var r := Listing(rows, status);
      forall i, j :: 0 <= i < j < |r| ==> r[i].createdAt > r[j].createdAt
  {
    if Filters(status) {
      FilterIncreasing(rows, (o: Order) => o.status == status.value, CreatedAt);
    }
  }

  /** `UPDATE orders SET completed_quantity, status WHERE id`: every row with
      the id gets both values; no other row and no other column changes. */
  function SetProgress(rows: seq<Order>, id: Option<int>, completed: int, status: string): (r: seq<Order>)
    ensures |r| == |rows|
    ensures forall i :: 0 <= i < |rows| && Some(rows[i].id) == id ==>
      r[i] == rows[i].(completed := completed, status := status)
    ensures forall i :: 0 <= i < |rows| && Some(rows[i].id) != id ==> r[i] == rows[i]
  {
    UpdateWhere(rows, (o: Order) => Some(o.id) == id, (o: Order) => o.(completed := completed, status := status))
  }

  /** `UPDATE orders SET status WHERE id`: the supplied string is written as
      is; the completed count is not touched. */
  function SetStatus(rows: seq<Order>, id: Option<int>, status: string): (r: seq<Order>)
    ensures |r| == |rows|
    ensures forall i :: 0 <= i < |rows| && Some(rows[i].id) == id ==> r[i] == rows[i].(status := status)
    ensures forall i :: 0 <= i < |rows| && Some(rows[i].id) != id ==> r[i] == rows[i]
  {
    UpdateWhere(rows, (o: Order) => Some(o.id) == id, (o: Order) => o.(status := status))
  }

  /** `SELECT quantity FROM orders WHERE id`: the row `fetchone` returns. */
  function RowWithId(rows: seq<Order>, id: Option<int>): (r: Option<Order>)
    ensures r.Some? ==> r.value in rows && Some(r.value.id) == id
    ensures r.None? <==> forall o :: o in rows ==> Some(o.id) != id
  {
    FindFirst(rows, (o: Order) => Some(o.id) == id)
  }

  /** POST: the row `INSERT ... RETURNING id` creates. Size and color default
      to ''; the other supplied keys are stored as given (an absent key is
      NULL). Status and completed count come from the column defaults, which
      are parameters here. */
  function NewOrder(body: OrderBody, id: int, createdAt: nat, defaultStatus: string, defaultCompleted: int)
    : (o: Order)
    ensures o.id == id && o.createdAt == createdAt
    ensures o.orderNumber == body.orderNumber && o.material == body.material
    ensures o.quantity == body.quantity && o.createdBy == body.createdBy
    ensures o.size == GetOr(body.size, "") && o.color == GetOr(body.color, "")
    ensures o.status == defaultStatus && o.completed == defaultCompleted
  {
    Order(id, body.orderNumber, body.material, body.quantity, GetOr(body.size, ""), GetOr(body.color, ""),
          defaultStatus, defaultCompleted, body.createdBy, createdAt)
  }

  /** What a PUT does to the table: the rows it leaves, or the failure that
      aborts it before any write. */
  datatype PutOutcome = Applied(rows: seq<Order>) | Failed(failure: Failure)

  /** PUT. With `completed_quantity` the quantity of the row with the id is
      read first: no such row, or a NULL quantity, aborts the request; else
      the completed count is stored as given and the status derived from it.
      Otherwise `status`, if present, is written as given. Otherwise nothing
      changes. */
  function Put(rows: seq<Order>, body: OrderBody): (r: PutOutcome)
    ensures r.Failed? <==>
      (body.completedQuantity.Some? && (RowWithId(rows, body.id).None? || RowWithId(rows, body.id).value.quantity.None?))
    ensures r.Failed? ==> r.failure == if RowWithId(rows, body.id).None? then RowMissing else NullQuantity
    ensures r.Applied? ==> |r.rows| == |rows|
    ensures r.Applied? ==> forall i :: 0 <= i < |rows| && Some(rows[i].id) != body.id ==> r.rows[i] == rows[i]
    ensures r.Applied? && body.completedQuantity.Some? ==>
      var c := body.completedQuantity.value;
      var total := RowWithId(rows, body.id).value.quantity.value;
      forall i :: 0 <= i < |rows| && Some(rows[i].id) == body.id ==>
        r.rows[i] == rows[i].(completed := c, status := DerivedStatus(c, total))
    ensures body.completedQuantity.None? && body.status.Some? ==>
      r.Applied? && forall i :: 0 <= i < |rows| && Some(rows[i].id) == body.id ==>
        r.rows[i] == rows[i].(status := body.status.value)
    ensures body.completedQuantity.None? && body.status.None? ==> r == Applied(rows)
  {
    if body.completedQuantity.Some? then
      match RowWithId(rows, body.id)
      case None => Failed(RowMissing)
      case Some(o) =>
        if o.quantity.None? then Failed(NullQuantity)
        else
          var c := body.completedQuantity.value;
          Applied(SetProgress(rows, body.id, c, DerivedStatus(c, o.quantity.value)))
    else if body.status.Some? then Applied(SetStatus(rows, body.id, body.status.value))
    else Applied(rows)
  }

  /** When ids are unique, a progress update derives the status of the row
      it changes from that same row's quantity, whatever its prior status
      (a shipped order included) and however far the count exceeds it. */
  lemma PutProgressUsesOwnQuantity(rows: seq<Order>, body: OrderBody, i: int)
    requires IncreasingBy(rows, IdOf)
    requires 0 <= i < |rows| && Some(rows[i].id) == body.id
    requires body.completedQuantity.Some? && rows[i].quantity.Some?
    ensures var c := body.completedQuantity.value;
      Put(rows, body) == Applied(SetProgress(rows, body.id, c, DerivedStatus(c, rows[i].quantity.value)))
  {
    var found := RowWithId(rows, body.id);
    var k :| 0 <= k < |rows| && rows[k] == found.value && forall j :: 0 <= j < k ==> Some(rows[j].id) != body.id;
    assert IdOf(rows[k]) == IdOf(rows[i]);
  }

  /** Both keys present: the progress branch runs and the status is ignored. */
  lemma PutProgressWins(rows: seq<Order>, body: OrderBody)
    requires body.completedQuantity.Some? && body.status.Some?
    ensures Put(rows, body) == Put(rows, body.(status := None))
  {
  }

  /** The server neither bounds the count by the quantity nor protects a
      shipped order: with unique ids, a count that reaches the quantity is
      stored as given and makes the row 'completed', whatever its prior
      status, 'shipped' included. */
  lemma PutOverridesShipped(rows: seq<Order>, body: OrderBody, i: int)
    requires IncreasingBy(rows, IdOf)
    requires 0 <= i < |rows| && Some(rows[i].id) == body.id
    requires body.completedQuantity.Some? && rows[i].quantity.Some?
    requires body.completedQuantity.value >= rows[i].quantity.value
    ensures Put(rows, body).Applied?
    ensures Put(rows, body).rows[i] == rows[i].(completed := body.completedQuantity.value, status := "completed")
  {
    PutProgressUsesOwnQuantity(rows, body, i);
  }

  /** A status-only PUT writes any string, and leaves the count alone. */
  lemma PutStatusUnguarded(rows: seq<Order>, body: OrderBody, i: int)
    requires body.completedQuantity.None? && body.status.Some?
    requires 0 <= i < |rows| && Some(rows[i].id) == body.id
    ensures Put(rows, body).rows[i].status == body.status.value
    ensures Put(rows, body).rows[i].completed == rows[i].completed
  {
  }
}
