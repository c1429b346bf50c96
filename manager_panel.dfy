/** The create-order dialog of the manager panel. */
module ManagerPanel {
  import opened Common
  import Orders

  /** The `newOrder` form. */
  datatype OrderForm = OrderForm(orderNumber: string, material: string, quantity: int, size: string, color: string)

  const EmptyForm := OrderForm("", "", 0, "", "")

  /** `createOrder`'s check and body: nothing is sent without an order
      number, a material and a positive quantity; otherwise the form's five
      fields go out with `created_by` set to the signed-in user. */
  function CreateOrderRequest(form: OrderForm, userId: int): (r: Option<Orders.OrderBody>)
    ensures r.Some? <==> form.orderNumber != "" && form.material != "" && form.quantity > 0
    ensures r.Some? ==> r.value == Orders.OrderBody(None, Some(form.orderNumber), Some(form.material),
      Some(form.quantity), Some(form.size), Some(form.color), Some(userId), None, None)
  {
    if form.orderNumber == "" || form.material == "" || form.quantity <= 0 then None
    else Some(Orders.OrderBody(None, Some(form.orderNumber), Some(form.material), Some(form.quantity),
                               Some(form.size), Some(form.color), Some(userId), None, None))
  }

  /** The row the orders handler inserts for the request holds the form's
      fields and the manager's id, and a positive quantity. */
  lemma CreateOrderStoresForm(form: OrderForm, userId: int, id: int, t: nat, status: string, completed: int)
    requires CreateOrderRequest(form, userId).Some?
    ensures var o := Orders.NewOrder(CreateOrderRequest(form, userId).value, id, t, status, completed);
      && o.orderNumber == Some(form.orderNumber) && o.material == Some(form.material)
      && o.quantity == Some(form.quantity) && form.quantity > 0
      && o.size == form.size && o.color == form.color && o.createdBy == Some(userId)
  {
  }

  class CreateOrderDialog {
    var form: OrderForm
    var open: bool
    var loading: bool

    constructor()
      ensures form == EmptyForm && !open && !loading
    {
      form, open, loading := EmptyForm, false, false;
    }

    /** `createOrder`: returns the body it posts, if any. The form resets and
        the dialog closes only on an ok response; loading ends either way. */
    method CreateOrder(userId: int, fetch: FetchResult) returns (sent: Option<Orders.OrderBody>)
      modifies this
      ensures sent == CreateOrderRequest(old(form), userId)
      ensures sent.Some? && fetch == Answered(true) ==> form == EmptyForm && !open
      ensures sent.None? || fetch != Answered(true) ==> form == old(form) && open == old(open)
      ensures sent.Some? ==> !loading
      ensures sent.None? ==> loading == old(loading)
    {
      sent := CreateOrderRequest(form, userId);
      if sent.Some? {
        loading := true;
        if fetch == Answered(true) {
          open, form := false, EmptyForm;
        }
        loading := false;
      }
    }
  }
}
