/** The progress dialog of the worker orders tab. Unlike the worker panel it
    checks nothing: it hands the selected order and the raw increment to its
    parent and resets. */
module OrdersTab {
  import opened Common
  import opened OrderViews

  class ProgressDialog {
    var selected: Option<FrontOrder>
    var amount: int
    var open: bool

    constructor()
      ensures selected.None? && amount == 0 && !open
    {
      selected, amount, open := None, 0, false;
    }

    /** The Add button of a row: selects the order and opens the dialog. */
    method Select(o: FrontOrder)
      modifies this
      ensures selected == Some(o) && open && amount == old(amount)
    {
      selected, open := Some(o), true;
    }

    /** `onOpenChange`: closing clears both the selection and the amount. */
    method OnOpenChange(isOpen: bool)
      modifies this
      ensures open == isOpen
      ensures !isOpen ==> selected.None? && amount == 0
      ensures isOpen ==> selected == old(selected) && amount == old(amount)
    {
      open := isOpen;
      if !isOpen {
        selected, amount := None, 0;
      }
    }

    /** `handleUpdateProgress`: with an order selected, forwards it with the
        increment as entered (no check of its sign or size) and resets;
        without one, does nothing. */
    method HandleUpdateProgress() returns (forwarded: Option<(FrontOrder, int)>)
      modifies this
      ensures old(selected).Some? ==>
        forwarded == Some((old(selected).value, old(amount))) && !open && amount == 0 && selected.None?
      ensures old(selected).None? ==>
        forwarded.None? && open == old(open) && amount == old(amount) && selected == old(selected)
    {
      if selected.Some? {
        forwarded := Some((selected.value, amount));
        open, amount, selected := false, 0, None;
      } else {
        forwarded := None;
      }
    }
  }
}
