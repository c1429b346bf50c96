/** The order lists of the worker and manager screens: the status tabs, the
    per-status counts, which buttons a row offers, and the signed stock delta
    read from a prompt. All of it is computed from props and state. */
module OrderViews {
  import opened Common
  import Orders
  import Materials

  /** An order as the screens receive it from GET. */
  datatype FrontOrder = FrontOrder(
    id: int,
    orderNumber: string,
    material: string,
    quantity: int,
    size: string,
    color: string,
    status: string,
    completed: int)

  // ---------------------------------------------------------------------------
  // Status tabs

  /** `filteredOrders` of the worker panel, the manager panel and the worker
      orders tab: 'all' keeps every order, any other tab keeps the orders
      whose status is that tab. */
  function TabFilter(orders: seq<FrontOrder>, tab: string): (r: seq<FrontOrder>)
    ensures tab == "all" ==> r == orders
    ensures tab != "all" ==> forall o :: o in r <==> o in orders && o.status == tab
    ensures IsSubsequence(r, orders)
  {
    var keep := (o: FrontOrder) => tab == "all" || o.status == tab;
    FilterIsSubsequence(orders, keep);
    if tab == "all" then FilterAll(orders, keep); FilterBy(orders, keep)
    else FilterBy(orders, keep)
  }

  /** The tabs the manager's orders section names explicitly. */
  predicate StatusTab(tab: string)
  {
    tab == "created" || tab == "in_progress" || tab == "completed" || tab == "shipped"
  }

  /** The per-order test of the manager's orders section: 'all' and the four
      status tabs as named, and any other tab keeps everything. */
  predicate SectionKeeps(tab: string, o: FrontOrder)
  {
    if tab == "all" then true
    else if tab == "created" then o.status == "created"
    else if tab == "in_progress" then o.status == "in_progress"
    else if tab == "completed" then o.status == "completed"
    else if tab == "shipped" then o.status == "shipped"
    else true
  }

  function SectionFilter(orders: seq<FrontOrder>, tab: string): (r: seq<FrontOrder>)
    ensures StatusTab(tab) ==> forall o :: o in r <==> o in orders && o.status == tab
    ensures IsSubsequence(r, orders)
  {
    FilterIsSubsequence(orders, o => SectionKeeps(tab, o));
    FilterBy(orders, o => SectionKeeps(tab, o))
  }

  /** On 'all' and on an unrecognised tab the section shows every order. */
  lemma SectionFilterKeepsAll(orders: seq<FrontOrder>, tab: string)
    requires !StatusTab(tab)
    ensures SectionFilter(orders, tab) == orders
  {
    FilterAll(orders, o => SectionKeeps(tab, o));
  }

  /** On the five tabs it names, the section filters exactly like the
      generic filter. */
  lemma SectionFilterMatchesTabFilter(orders: seq<FrontOrder>, tab: string)
    requires tab == "all" || StatusTab(tab)
    ensures SectionFilter(orders, tab) == TabFilter(orders, tab)
  {
    FilterSame(orders, o => SectionKeeps(tab, o), (o: FrontOrder) => tab == "all" || o.status == tab);
  }

  /** Off those tabs the two disagree: on any other tab the generic filter
      keeps only the orders whose status is that tab, while the section keeps
      them all, so the two differ as soon as one order has another status. */
  lemma FiltersDisagreeOffTabs(orders: seq<FrontOrder>, tab: string, k: int)
    requires tab != "all" && !StatusTab(tab)
    requires 0 <= k < |orders| && orders[k].status != tab
    ensures SectionFilter(orders, tab) == orders
    ensures orders[k] !in TabFilter(orders, tab)
    ensures TabFilter(orders, tab) != SectionFilter(orders, tab)
  {
    SectionFilterKeepsAll(orders, tab);
    assert orders[k] in orders;
  }

  /** Filtering twice by the same tab is filtering once. */
  lemma SectionFilterIdempotent(orders: seq<FrontOrder>, tab: string)
    ensures SectionFilter(SectionFilter(orders, tab), tab) == SectionFilter(orders, tab)
  {
    FilterIdempotent(orders, o => SectionKeeps(tab, o));
  }

  // ---------------------------------------------------------------------------
  // Counts

  /** `orders.filter(o => o.status === status).length`. */
  function Count(orders: seq<FrontOrder>, status: string): (n: nat)
    ensures n <= |orders|
    ensures n == 0 <==> forall o :: o in orders ==> o.status != status
  {
    var kept := FilterBy(orders, (o: FrontOrder) => o.status == status);
    assert kept != [] ==> kept[0] in kept;
    |kept|
  }

  /** `ordersByStatus` of the worker orders tab. Shipped orders have no count. */
  datatype Counts = Counts(all: nat, created: nat, inProgress: nat, completed: nat)

  function StatusCounts(orders: seq<FrontOrder>): (c: Counts)
    ensures c.all == |orders|
    ensures c.created == |TabFilter(orders, "created")|
    ensures c.inProgress == |TabFilter(orders, "in_progress")|
    ensures c.completed == |TabFilter(orders, "completed")|
  {
    CountIsTabLength(orders, "created");
    CountIsTabLength(orders, "in_progress");
    CountIsTabLength(orders, "completed");
    Counts(|orders|, Count(orders, "created"), Count(orders, "in_progress"), Count(orders, "completed"))
  }

  /** No order is counted twice: the per-status counts, shipped included,
      add up to at most the number of orders. */
  lemma {:induction false} CountsFit(orders: seq<FrontOrder>)
    ensures Count(orders, "created") + Count(orders, "in_progress") + Count(orders, "completed")
          + Count(orders, "shipped") <= |orders|
  {
    if orders != [] {
      CountsFit(orders[1..]);
    }
  }

  /** So the three cards never show more than 'all', and the gap is at least
      the number of shipped orders. */
  lemma CardsFit(orders: seq<FrontOrder>)
    ensures var c := StatusCounts(orders);
      c.created + c.inProgress + c.completed + Count(orders, "shipped") <= c.all
  {
    CountsFit(orders);
  }

  /** A status card's count is the length of that status tab. */
  lemma CountIsTabLength(orders: seq<FrontOrder>, status: string)
    requires status != "all"
    ensures Count(orders, status) == |TabFilter(orders, status)|
  {
    FilterSame(orders, (o: FrontOrder) => o.status == status, (o: FrontOrder) => status == "all" || o.status == status);
  }

  // ---------------------------------------------------------------------------
  // Row actions

  /** The action cell of the worker panel's order table. */
  datatype WorkerAction = Ship | EnterProgress | NoAction

  function WorkerPanelAction(o: FrontOrder): (a: WorkerAction)
    ensures a == Ship <==> o.status == "completed"
    ensures a == EnterProgress <==> o.status != "completed" && o.status != "shipped"
    ensures a == NoAction <==> o.status == "shipped"
  {
    if o.status == "completed" then Ship
    else if o.status != "shipped" then EnterProgress
    else NoAction
  }

  /** The buttons of a row of the worker orders tab. */
  datatype TabActions = TabActions(progress: bool, ship: bool, delete: bool)

  function OrdersTabActions(o: FrontOrder): (a: TabActions)
    ensures a.progress <==> o.status != "shipped" && o.completed < o.quantity
    ensures a.ship <==> !a.progress && o.status == "completed"
    ensures a.delete
  {
    var progress := o.status != "shipped" && o.completed < o.quantity;
    TabActions(progress, !progress && o.status == "completed", true)
  }

  /** When the stored status is the one the server derives from the counts,
      the two screens offer the same thing: shipping exactly when the order
      is complete, progress entry exactly when it is not. */
  lemma ActionsAgreeOnDerivedStatus(o: FrontOrder)
    requires o.status == Orders.DerivedStatus(o.completed, o.quantity)
    ensures OrdersTabActions(o).ship <==> WorkerPanelAction(o) == Ship
    ensures OrdersTabActions(o).progress <==> WorkerPanelAction(o) == EnterProgress
  {
  }

  /** A status set by hand breaks that agreement: an order marked
      'completed' short of its quantity is shipped from the worker panel but
      offered progress entry in the orders tab. */
  lemma ActionsDisagreeOnHandSetStatus(o: FrontOrder)
    requires o.status == "completed" && o.completed < o.quantity
    ensures WorkerPanelAction(o) == Ship
    ensures OrdersTabActions(o).progress && !OrdersTabActions(o).ship
  {
  }

  /** The buttons of a row of the manager's orders section. */
  datatype SectionActions = SectionActions(printing: bool, deleting: bool)

  function OrdersSectionActions(o: FrontOrder): (a: SectionActions)
    ensures a.printing && a.deleting
  {
    SectionActions(true, true)
  }

  // ---------------------------------------------------------------------------
  // Stock deltas from a prompt

  /** What `prompt` returned: cancelled (`null`), the empty string, or a
      number. */
  datatype PromptAnswer = Cancelled | Blank | Number(n: int)

  /** `if (amount) updateInventory(id, ±Number(amount))`: nothing for a
      cancelled or empty prompt, the amount for add, its negation for
      deduct. */
  function StockDelta(answer: PromptAnswer, deduct: bool): (d: Option<int>)
    ensures d.None? <==> !answer.Number?
    ensures answer.Number? && !deduct ==> d == Some(answer.n)
    ensures answer.Number? && deduct ==> d == Some(-answer.n)
  {
    match answer
    case Number(n) => Some(if deduct then -n else n)
    case _ => None
  }

  /** Deducting the amount just added restores the material's stock. */
  lemma DeductUndoesAdd(rows: seq<Materials.Material>, id: int, n: int)
    ensures var add := StockDelta(Number(n), false).value;
      var deduct := StockDelta(Number(n), true).value;
      Materials.AddStock(Materials.AddStock(rows, Some(id), add), Some(id), deduct) == rows
  {
    Materials.AddStockUndo(rows, Some(id), n);
  }
}
