/**
  The order API route: PATCH (status overwrite or line replacement), POST
  (status check or order creation) and GET (status lookup). The database is an
  in-memory store: a read-only catalog from item id to price in cents, and a
  table from order id to order.
 */
module OrderService {
  import opened Wrappers
  import opened Sequences

  /** One line of a request or of a stored order: an item id and a quantity. */
  datatype OrderLine = OrderLine(itemId: int, quantity: int)

  datatype Order = Order(
    roomNumber: string,
    status: string,
    totalPrice: int,
    lines: seq<OrderLine>,
    createdAt: int)

  /** The value found under the `items` key of a JSON body. */
  datatype ItemsField = NoItems | NotAList | ItemList(lines: seq<OrderLine>)

  /** A PATCH body: whether it has a `status` key, and what it has under `items`. */
  datatype PatchBody = PatchBody(status: Option<string>, items: ItemsField)

  /** A POST body: `action: 'getStatus'` selects the status check, anything else is a creation. */
  datatype PostBody =
    | StatusCheck(orderId: Option<int>)
    | CreateRequest(roomNumber: Option<string>, items: ItemsField)

  datatype Response =
    | OrderJson(order: Order)                     // 200, the order with its lines
    | StatusJson(status: string, updatedAt: int)  // 200, status and timestamp
    | CreatedId(orderId: int)                     // 201, the new order id
    | CreatedOrder(orderId: int, order: Order)    // 201, the whole new order
    | Error(code: int)                            // 400, 404, 405 or 500

  /** The only statuses the PATCH handler accepts. */
  const ValidStatuses: seq<string> := ["pending", "in-progress", "completed", "canceled"]

  function LineTotal(catalog: map<int, nat>, line: OrderLine): int {
    if line.itemId in catalog then catalog[line.itemId] * line.quantity else 0
  }

  /** The sum of price times quantity over `lines`. */
  function LinesTotal(catalog: map<int, nat>, lines: seq<OrderLine>): int {
    if lines == [] then 0 else LineTotal(catalog, lines[0]) + LinesTotal(catalog, lines[1..])
  }

  /** Every line names an item of the catalog. */
  predicate AllKnown(catalog: map<int, nat>, lines: seq<OrderLine>) {
    forall i :: 0 <= i < |lines| ==> lines[i].itemId in catalog
  }

  /** The total of a concatenation is the sum of the totals, so the total can be accumulated line by line. */
  lemma {:induction false} LinesTotalAppend(catalog: map<int, nat>, a: seq<OrderLine>, b: seq<OrderLine>)
    ensures LinesTotal(catalog, a + b) == LinesTotal(catalog, a) + LinesTotal(catalog, b)
  {
    if a == [] {
      assert a + b == b;
    } else {
      assert (a + b)[0] == a[0];
      assert (a + b)[1..] == a[1..] + b;
      LinesTotalAppend(catalog, a[1..], b);
    }
  }

  /**
    The lookups run concurrently and each adds its product when it completes,
    so the lines are added in some order: any rearrangement of the lines has
    the same total.
   */
  lemma {:induction false} LinesTotalPermutation(catalog: map<int, nat>, a: seq<OrderLine>, b: seq<OrderLine>)
    requires multiset(a) == multiset(b)
    ensures LinesTotal(catalog, a) == LinesTotal(catalog, b)
    decreases |a|
  {
    if a == [] {
      assert |b| == |multiset(b)| == 0;
    } else {
      var j := PermutationTail(a, b);
      LinesTotalPermutation(catalog, a[1..], b[..j] + b[j + 1..]);
      LinesTotalRemoveAt(catalog, b, j);
    }
  }

  /** Taking line `j` out of the lines takes its product out of the total. */
  lemma LinesTotalRemoveAt(catalog: map<int, nat>, b: seq<OrderLine>, j: int)
    requires 0 <= j < |b|
    ensures LinesTotal(catalog, b) == LineTotal(catalog, b[j]) + LinesTotal(catalog, b[..j] + b[j + 1..])
  {
    assert b == b[..j] + ([b[j]] + b[j + 1..]);
    LinesTotalAppend(catalog, b[..j], [b[j]] + b[j + 1..]);
    LinesTotalAppend(catalog, b[..j], b[j + 1..]);
    assert ([b[j]] + b[j + 1..])[1..] == b[j + 1..];
  }

  /** What a stored order must satisfy: known items, the derived total, a whitelisted status. */
  predicate Consistent(catalog: map<int, nat>, o: Order) {
    && AllKnown(catalog, o.lines)
    && o.totalPrice == LinesTotal(catalog, o.lines)
    && o.status in ValidStatuses
  }

  /** The outcome of a status PATCH on order `id`, from table `before` to table `after`. */
  predicate StatusUpdated(before: map<int, Order>, after: map<int, Order>, id: int, status: string, resp: Response) {
    if status !in ValidStatuses then
      resp == Error(400) && after == before
    else if id !in before then
      resp == Error(500) && after == before
    else
      after == before[id := before[id].(status := status)] && resp == OrderJson(after[id])
  }

  /** The outcome of an items PATCH on order `id`: all lines replaced, total recomputed. */
  predicate ItemsReplaced(catalog: map<int, nat>, before: map<int, Order>, after: map<int, Order>,
                          id: int, items: seq<OrderLine>, resp: Response) {
    if !AllKnown(catalog, items) || id !in before then
      resp == Error(500) && after == before
    else
      && after == before[id := before[id].(lines := items, totalPrice := LinesTotal(catalog, items))]
      && resp == OrderJson(after[id])
  }

  class OrderStore {
    const catalog: map<int, nat>
    var orders: map<int, Order>
    var nextId: int

    ghost predicate Valid()
      reads this
    {
      && 1 <= nextId
      && forall id :: id in orders ==> 1 <= id < nextId && Consistent(catalog, orders[id])
    }

    constructor (catalog: map<int, nat>)
      ensures Valid()
      ensures this.catalog == catalog && orders == map[] && nextId == 1
    {
      this.catalog := catalog;
      orders := map[];
      nextId := 1;
    }

    /**
      Looks every requested item up and accumulates price times quantity; the
      first unknown id makes the whole resolution fail.
     */
    method Resolve(items: seq<OrderLine>) returns (total: Option<int>)
      ensures total.Some? <==> AllKnown(catalog, items)
      ensures total.Some? ==> total.value == LinesTotal(catalog, items)
    {
      var sum := 0;
      var i := 0;
      while i < |items|
        invariant 0 <= i <= |items|
        invariant AllKnown(catalog, items[..i])
        invariant sum == LinesTotal(catalog, items[..i])
      {
        var line := items[i];
        if line.itemId !in catalog {
          return None;
        }
        assert items[..i + 1] == items[..i] + [line];
        LinesTotalAppend(catalog, items[..i], [line]);
        sum := sum + catalog[line.itemId] * line.quantity;
        i := i + 1;
      }
      assert items[..i] == items;
      return Some(sum);
    }

    /** Stores a new pending order under a fresh id. */
    method Insert(roomNumber: string, lines: seq<OrderLine>, total: int, now: int) returns (id: int)
      requires Valid()
      requires AllKnown(catalog, lines) && total == LinesTotal(catalog, lines)
      modifies this`orders, this`nextId
      ensures Valid()
      ensures id !in old(orders)
      ensures orders == old(orders)[id := Order(roomNumber, "pending", total, lines, now)]
    {
      id := nextId;
      orders := orders[id := Order(roomNumber, "pending", total, lines, now)];
      nextId := nextId + 1;
    }

    /** Overwrites the status of order `id`, whatever it was, if the new one is whitelisted. */
    method UpdateStatus(id: int, status: string) returns (resp: Response)
      requires Valid()
      modifies this`orders
      ensures Valid()
      ensures StatusUpdated(old(orders), orders, id, status, resp)
    {
      if status !in ValidStatuses {
        return Error(400);
      }
      if id !in orders {
        return Error(500);
      }
      orders := orders[id := orders[id].(status := status)];
      resp := OrderJson(orders[id]);
    }

    /**
      Resolves every item first, then deletes the order's lines and writes the
      new lines with the recomputed total.
     */
    method ReplaceItems(id: int, items: seq<OrderLine>) returns (resp: Response)
      requires Valid()
      modifies this`orders
      ensures Valid()
      ensures ItemsReplaced(catalog, old(orders), orders, id, items, resp)
    {
      var total := Resolve(items);
      if total.None? {
        return Error(500);
      }
      if id in orders {
        // deleting the lines of a missing order deletes nothing
        orders := orders[id := orders[id].(lines := [])];
      }
      if id !in orders {
        return Error(500);
      }
      orders := orders[id := orders[id].(lines := items, totalPrice := total.value)];
      resp := OrderJson(orders[id]);
    }

    /** PATCH: `status` takes precedence over `items`; a body with neither is rejected. */
    method Patch(id: Option<int>, body: PatchBody) returns (resp: Response)
      requires Valid()
      modifies this`orders
      ensures Valid()
      ensures resp.Error? ==> orders == old(orders)
      ensures id.None? ==> resp == Error(400)
      ensures id.Some? && body.status.Some? ==>
        StatusUpdated(old(orders), orders, id.value, body.status.value, resp)
      ensures id.Some? && body.status.None? && body.items.ItemList? ==>
        ItemsReplaced(catalog, old(orders), orders, id.value, body.items.lines, resp)
      ensures id.Some? && body.status.None? && body.items.NotAList? ==> resp == Error(500)
      ensures id.Some? && body.status.None? && body.items.NoItems? ==> resp == Error(400)
    {
      if id.None? {
        return Error(400);
      }
      if body.status.Some? {
        resp := UpdateStatus(id.value, body.status.value);
        return;
      }
      match body.items
      case NoItems =>
        resp := Error(400);
      case NotAList =>
        resp := Error(500);
      case ItemList(lines) =>
        resp := ReplaceItems(id.value, lines);
    }

    /** The status lookup shared by GET and the POST status check; it changes nothing. */
    method StatusOf(id: Option<int>) returns (resp: Response)
      ensures id.None? ==> resp == Error(400)
      ensures id.Some? && id.value !in orders ==> resp == Error(404)
      ensures id.Some? && id.value in orders ==>
        resp == StatusJson(orders[id.value].status, orders[id.value].createdAt)
    {
      if id.None? {
        return Error(400);
      }
      if id.value !in orders {
        return Error(404);
      }
      var o := orders[id.value];
      resp := StatusJson(o.status, o.createdAt);
    }

    /**
      Order creation: a room number and an items array are required; every item
      must resolve, and only then is a pending order stored.
     */
    method Create(roomNumber: Option<string>, items: ItemsField, now: int) returns (resp: Response)
      requires Valid()
      modifies this`orders, this`nextId
      ensures Valid()
      ensures resp.Error? ==> orders == old(orders)
      ensures roomNumber.None? || roomNumber == Some("") || !items.ItemList? ==> resp == Error(400)
      ensures roomNumber.Some? && roomNumber.value != "" && items.ItemList? ==>
        if !AllKnown(catalog, items.lines) then
          resp == Error(500)
        else
          && resp.CreatedId?
          && resp.orderId !in old(orders)
          && orders == old(orders)[resp.orderId :=
               Order(roomNumber.value, "pending", LinesTotal(catalog, items.lines), items.lines, now)]
    {
      if roomNumber.None? || roomNumber.value == "" || !items.ItemList? {
        return Error(400);
      }
      var total := Resolve(items.lines);
      if total.None? {
        return Error(500);
      }
      var id := Insert(roomNumber.value, items.lines, total.value, now);
      resp := CreatedId(id);
    }

    /** POST: the status check when the action says so, otherwise order creation. */
    method Post(body: PostBody, now: int) returns (resp: Response)
      requires Valid()
      modifies this`orders, this`nextId
      ensures Valid()
      ensures resp.Error? ==> orders == old(orders)
      ensures body.StatusCheck? ==> orders == old(orders) && nextId == old(nextId)
      ensures body.StatusCheck? && body.orderId.None? ==> resp == Error(400)
      ensures body.StatusCheck? && body.orderId.Some? ==>
        if body.orderId.value in orders then
          resp == StatusJson(orders[body.orderId.value].status, orders[body.orderId.value].createdAt)
        else
          resp == Error(404)
      ensures body.CreateRequest? && (body.roomNumber.None? || body.roomNumber == Some("") || !body.items.ItemList?) ==>
        resp == Error(400)
      ensures body.CreateRequest? && body.roomNumber.Some? && body.roomNumber.value != "" && body.items.ItemList? ==>
        if !AllKnown(catalog, body.items.lines) then
          resp == Error(500)
        else
          && resp.CreatedId?
          && resp.orderId !in old(orders)
          && orders == old(orders)[resp.orderId :=
               Order(body.roomNumber.value, "pending", LinesTotal(catalog, body.items.lines), body.items.lines, now)]
    {
      match body
      case StatusCheck(orderId) =>
        resp := StatusOf(orderId);
      case CreateRequest(roomNumber, items) =>
        resp := Create(roomNumber, items, now);
    }

    /** GET: the status lookup by query parameter. */
    method Get(id: Option<int>) returns (resp: Response)
      ensures id.None? ==> resp == Error(400)
      ensures id.Some? && id.value !in orders ==> resp == Error(404)
      ensures id.Some? && id.value in orders ==>
        resp == StatusJson(orders[id.value].status, orders[id.value].createdAt)
    {
      resp := StatusOf(id);
    }
  }
}
