/**
  The older order-creation handler of the dishes API. It accepts only POST,
  resolves every requested item while accumulating the total, and answers with
  the whole created order.
 */
module LegacyOrder {
  import opened OrderService

  method Handler(store: OrderStore, httpMethod: string, roomNumber: string, items: ItemsField, now: int)
    returns (resp: Response)
    requires store.Valid()
    modifies store`orders, store`nextId
    ensures store.Valid()
    ensures resp.Error? ==> store.orders == old(store.orders)
    ensures httpMethod != "POST" ==> resp == Error(405)
    ensures httpMethod == "POST" && !items.ItemList? ==> resp == Error(500)
    ensures httpMethod == "POST" && items.ItemList? ==>
      if !AllKnown(store.catalog, items.lines) then
        resp == Error(500)
      else
        && resp.CreatedOrder?
        && resp.orderId !in old(store.orders)
        && resp.order == Order(roomNumber, "pending", LinesTotal(store.catalog, items.lines), items.lines, now)
        && store.orders == old(store.orders)[resp.orderId := resp.order]
  {
    if httpMethod != "POST" {
      return Error(405);
    }
    if !items.ItemList? {
      // `items.map` throws inside the try block
      return Error(500);
    }
    var total := store.Resolve(items.lines);
    if total.None? {
      return Error(500);
    }
    var id := store.Insert(roomNumber, items.lines, total.value, now);
    resp := CreatedOrder(id, store.orders[id]);
  }
}
