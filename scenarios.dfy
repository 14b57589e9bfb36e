/**
  Worked scenarios over the seeded menu's prices, in cents: a guest fills a
  cart and places the order, staff complete it, and the dashboard views change
  accordingly.
 */
module Scenarios {
  import opened Wrappers
  import Cart
  import OrderService
  import OrderForm
  import OrdersList

  const CaesarSalad := Cart.Item(1, "Caesar Salad", 799, Some("appetizer"))
  const GrilledSalmon := Cart.Item(3, "Grilled Salmon", 1899, Some("main"))

  /** The catalog of the store: item id to unit price in cents. */
  const Catalog: map<int, nat> := map[1 := 799, 2 := 550, 3 := 1899, 4 := 1299]

  /** A session whose cart holds two salads and a salmon, added one at a time. */
  method SaladsAndSalmon() returns (s: OrderForm.Session)
    ensures fresh(s) && s.Valid()
    ensures s.cart == [Cart.CartLine(CaesarSalad, 2), Cart.CartLine(GrilledSalmon, 1)] && s.totalPrice == 3497
  {
    s := new OrderForm.Session();
    s.HandleAddItem(CaesarSalad);
    s.HandleAddItem(CaesarSalad);
    assert s.cart == [Cart.CartLine(CaesarSalad, 2)];
    s.HandleAddItem(GrilledSalmon);
  }

  /** Add salad, salad, salmon, then remove one salad: one of each is left, and the running total follows. */
  method FillCart() returns (cart: seq<Cart.CartLine>, total: int, request: Option<seq<OrderService.OrderLine>>)
    ensures cart == [Cart.CartLine(CaesarSalad, 1), Cart.CartLine(GrilledSalmon, 1)]
    ensures total == 2698
    ensures request == Some([OrderService.OrderLine(1, 1), OrderService.OrderLine(3, 1)])
  {
    var s := SaladsAndSalmon();
    s.HandleRemoveItem(CaesarSalad);
    cart, total := s.cart, s.totalPrice;
    assert cart[1..] == [Cart.CartLine(GrilledSalmon, 1)];
    assert OrderForm.RequestLines(cart[1..]) == [OrderService.OrderLine(3, 1)];
    assert OrderForm.RequestLines(cart) == [OrderService.OrderLine(1, 1), OrderService.OrderLine(3, 1)];
    request := s.HandlePlaceOrder(Some(1));
  }

  /**
    Room 101 orders two salads and a salmon; the store prices them at 3497 and
    keeps the order pending until staff mark it completed.
   */
  method OrderLifecycle() returns (created: OrderService.Response, patched: OrderService.Response,
                                   polled: OrderService.Response)
    ensures created.CreatedId?
    ensures patched.OrderJson? && patched.order.status == "completed"
    ensures patched.order.roomNumber == "101" && patched.order.totalPrice == 3497
    ensures polled == OrderService.StatusJson("completed", 1000)
  {
    var store := new OrderService.OrderStore(Catalog);
    var lines := [OrderService.OrderLine(1, 2), OrderService.OrderLine(3, 1)];
    assert OrderService.LinesTotal(Catalog, lines) == 3497;
    created := store.Create(Some("101"), OrderService.ItemList(lines), 1000);
    patched := store.Patch(Some(created.orderId),
                           OrderService.PatchBody(Some("completed"), OrderService.NoItems));
    polled := store.Get(Some(created.orderId));
  }

  /** An unknown item makes creation fail, and nothing is stored. */
  method UnknownItemRejected() returns (resp: OrderService.Response)
    ensures resp == OrderService.Error(500)
  {
    var store := new OrderService.OrderStore(Catalog);
    resp := store.Create(Some("101"), OrderService.ItemList([OrderService.OrderLine(99, 1)]), 1000);
  }

  /** A status outside the store's list is refused. */
  method UnknownStatusRejected() returns (resp: OrderService.Response)
    ensures resp == OrderService.Error(400)
  {
    var store := new OrderService.OrderStore(Catalog);
    var created := store.Create(Some("101"), OrderService.ItemList([OrderService.OrderLine(1, 1)]), 1000);
    resp := store.Patch(Some(created.orderId),
                        OrderService.PatchBody(Some("delivered"), OrderService.NoItems));
  }

  function Listed(id: int, room: string, status: string): OrdersList.Row {
    OrdersList.Row(id, OrderService.Order(room, status, 0, [], 0))
  }

  /**
    Three rooms on three levels: the default view hides the completed order,
    the level-2 view shows room 210 only, and "completed only" shows room 101.
   */
  method DashboardViews() returns (defaultView: seq<OrdersList.Row>, level2: seq<OrdersList.Row>,
                                   completed: seq<OrdersList.Row>)
    ensures defaultView == [Listed(2, "210", "pending"), Listed(3, "305", "canceled")]
    ensures level2 == [Listed(2, "210", "pending")]
    ensures completed == [Listed(1, "101", "completed")]
  {
    var rows := [Listed(1, "101", "completed"), Listed(2, "210", "pending"), Listed(3, "305", "canceled")];
    assert rows[..2] == [Listed(1, "101", "completed"), Listed(2, "210", "pending")];
    assert rows[..2][..1] == [Listed(1, "101", "completed")];
    var first := rows[..2][..1];
    assert OrdersList.Filtered(first, false, "all") == [];
    assert OrdersList.Filtered(first, false, "2") == [];
    assert OrdersList.Filtered(first, true, "2") == [Listed(1, "101", "completed")];
    assert OrdersList.StartsWith("210", "2");
    assert "305"[..1][0] == '3';
    var d := new OrdersList.Dashboard(rows);
    defaultView := d.FilteredOrders();
    d.SetFilterLevel("2");
    level2 := d.FilteredOrders();
    d.ToggleCompletedOnly();
    completed := d.FilteredOrders();
  }

  /** A session holding order 7, placed from a one-salad cart. */
  method PlacedSession() returns (s: OrderForm.Session)
    ensures fresh(s) && s.Valid() && s.currentOrderId == Some(7) && s.isEditing
  {
    s := new OrderForm.Session();
    s.HandleAddItem(CaesarSalad);
    var _ := s.HandlePlaceOrder(Some(7));
  }

  /** Staff cancel the order: the poll does not lock, and the order stays held. */
  method PollCanceled() returns (held: bool)
    ensures held
  {
    var s := PlacedSession();
    OrderForm.ToLowerOfLower("canceled");
    OrderForm.CanceledNeverLocks("canceled");
    s.PollOrderStatus(Some("canceled"));
    held := s.currentOrderId == Some(7);
  }

  /** "Completed" in any letter case locks: the order is forgotten and adding is enabled again. */
  method PollCompleted() returns (released: bool)
    ensures released
  {
    var s := PlacedSession();
    assert OrderForm.ToLower("Completed") == "completed";
    s.PollOrderStatus(Some("Completed"));
    released := s.EditEnabled() && s.currentOrderId.None? && s.cart == [];
  }
}
