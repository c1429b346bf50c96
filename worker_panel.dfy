/** The progress dialog of the worker panel: the entered amount is checked
    against the order, the cumulative count is sent, and the dialog resets
    once the request has gone out. */
module WorkerPanel {
  import opened Common
  import Orders
  import opened OrderViews

  /** The PUT body `{id, completed_quantity}` the panel sends. */
  datatype ProgressUpdate = ProgressUpdate(id: int, completed: int)

  /** `updateOrderProgress`'s checks: an order is selected, the amount is
      positive, and the new total does not pass the ordered quantity. The
      request carries the new total, not the increment. */
  function ProgressRequest(selected: Option<FrontOrder>, amount: int): (r: Option<ProgressUpdate>)
    ensures r.Some? <==>
      selected.Some? && amount > 0 && selected.value.completed + amount <= selected.value.quantity
    ensures r.Some? ==> r.value == ProgressUpdate(selected.value.id, selected.value.completed + amount)
  {
    if selected.None? || amount <= 0 then None
    else if selected.value.completed + amount > selected.value.quantity then None
    else Some(ProgressUpdate(selected.value.id, selected.value.completed + amount))
  }

  /** What the server then derives: a request that reaches the quantity
      completes the order, any other puts it in progress; it can never send
      an order back to 'created'. */
  lemma ProgressRequestStatus(o: FrontOrder, amount: int)
    requires o.completed >= 0
    requires ProgressRequest(Some(o), amount).Some?
    ensures var c := ProgressRequest(Some(o), amount).value.completed;
      && o.completed < c <= o.quantity
      && (Orders.DerivedStatus(c, o.quantity) == "completed" <==> c == o.quantity)
      && (Orders.DerivedStatus(c, o.quantity) == "in_progress" <==> c < o.quantity)
  {
  }

  /** The request as the orders handler reads it: `id` and
      `completed_quantity` present, `status` absent. */
  function AsOrderBody(u: ProgressUpdate): (b: Orders.OrderBody)
    ensures b.id == Some(u.id) && b.completedQuantity == Some(u.completed) && b.status.None?
  {
    Orders.OrderBody(Some(u.id), None, None, None, None, None, None, Some(u.completed), None)
  }

  /** Sent against a table that agrees with the panel's view of the order,
      the request stores the new total in that row. */
  lemma ProgressRequestApplies(rows: seq<Orders.Order>, o: FrontOrder, amount: int, i: int)
    requires IncreasingBy(rows, Orders.IdOf)
    requires 0 <= i < |rows| && rows[i].id == o.id && rows[i].quantity == Some(o.quantity)
    requires ProgressRequest(Some(o), amount).Some?
    ensures var c := o.completed + amount;
      var put := Orders.Put(rows, AsOrderBody(ProgressRequest(Some(o), amount).value));
      put.Applied? && put.rows[i] == rows[i].(completed := c, status := Orders.DerivedStatus(c, o.quantity))
  {
    var body := AsOrderBody(ProgressRequest(Some(o), amount).value);
    Orders.PutProgressUsesOwnQuantity(rows, body, i);
  }

  /** The panel's dialog state. */
  class ProgressDialog {
    var selected: Option<FrontOrder>
    var amount: int
    var open: bool

    constructor()
      ensures selected.None? && amount == 0 && !open
    {
      selected, amount, open := None, 0, false;
    }

    /** The Edit button of a row. */
    method Select(o: FrontOrder)
      modifies this
      ensures selected == Some(o) && amount == old(amount) && open == old(open)
    {
      selected := Some(o);
    }

    /** `onOpenChange`: closing clears the selection but keeps the amount. */
    method OnOpenChange(isOpen: bool)
      modifies this
      ensures open == isOpen && amount == old(amount)
      ensures selected == if isOpen then old(selected) else None
    {
      open := isOpen;
      if !isOpen {
        selected := None;
      }
    }

    /** `updateOrderProgress`: returns the request it sends, if any. The form
        resets only when the `fetch` resolved; a network error leaves it. */
    method UpdateOrderProgress(fetch: FetchResult) returns (sent: Option<ProgressUpdate>)
      modifies this
      ensures sent == ProgressRequest(old(selected), old(amount))
      ensures sent.Some? && fetch.Answered? ==> !open && amount == 0 && selected.None?
      ensures sent.None? || fetch.NetworkError? ==>
        open == old(open) && amount == old(amount) && selected == old(selected)
    {
      sent := ProgressRequest(selected, amount);
      if sent.Some? && fetch.Answered? {
        open, amount, selected := false, 0, None;
      }
    }
  }
}
