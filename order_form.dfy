/**
  The guest's ordering session in the order form: the cart and its running
  total, the id of the placed order, the editing flag and the last confirmed
  cart. Handlers overwrite these fields step by step; the server's replies are
  parameters.
 */
module OrderForm {
  import opened Wrappers
  import opened Cart
  import OrderService

  /** The request body's `items`: each cart line as an item id and a quantity, in cart order. */
  function RequestLines(cart: seq<CartLine>): (r: seq<OrderService.OrderLine>)
    ensures |r| == |cart|
    ensures forall i :: 0 <= i < |cart| ==> r[i] == OrderService.OrderLine(cart[i].item.id, cart[i].quantity)
  {
    if cart == [] then []
    else [OrderService.OrderLine(cart[0].item.id, cart[0].quantity)] + RequestLines(cart[1..])
  }

  /**
    When the cart's price snapshots agree with the catalog, the total the
    server stores for the submitted lines is the cart's total.
   */
  lemma {:induction false} ServerTotalMatchesCart(catalog: map<int, nat>, cart: seq<CartLine>)
    requires forall i :: 0 <= i < |cart| ==>
      cart[i].item.id in catalog && catalog[cart[i].item.id] == cart[i].item.price
    ensures OrderService.AllKnown(catalog, RequestLines(cart))
    ensures OrderService.LinesTotal(catalog, RequestLines(cart)) == CartTotal(cart)
  {
    if cart != [] {
      ServerTotalMatchesCart(catalog, cart[1..]);
      var r := RequestLines(cart);
      assert r[1..] == RequestLines(cart[1..]);
      forall i | 0 <= i < |r|
        ensures r[i].itemId in catalog
      {
        if i > 0 {
          assert r[i] == RequestLines(cart[1..])[i - 1];
        }
      }
    }
  }

  function LowerChar(c: char): char {
    if 'A' <= c <= 'Z' then (c as int + 32) as char else c
  }

  /** ASCII `toLowerCase`. */
  function ToLower(s: string): string {
    if s == [] then [] else [LowerChar(s[0])] + ToLower(s[1..])
  }

  /**
    Whether a polled status locks the session: `in-progress`, or one of the
    final statuses as the poll spells them, after lower-casing.
   */
  predicate Locks(status: string) {
    var s := ToLower(status);
    s == "in-progress" || s == "completed" || s == "cancelled" || s == "delivered"
  }

  /** A string without capitals is its own lower-case form. */
  lemma {:induction false} ToLowerOfLower(s: string)
    requires forall i :: 0 <= i < |s| ==> !('A' <= s[i] <= 'Z')
    ensures ToLower(s) == s
  {
    if s != [] {
      ToLowerOfLower(s[1..]);
    }
  }

  lemma PendingKeepsEditing()
    ensures !Locks("pending")
  {
  }

  lemma InProgressLocks()
    ensures Locks("in-progress")
  {
    ToLowerOfLower("in-progress");
  }

  lemma CompletedLocks()
    ensures Locks("completed")
  {
    ToLowerOfLower("completed");
  }

  /**
    Of the four statuses the store can hold, only `in-progress` and
    `completed` lock the session: the poll looks for `cancelled`, and the
    store writes `canceled`.
   */
  lemma StoreStatusesThatLock(s: string)
    requires s in OrderService.ValidStatuses
    ensures Locks(s) <==> s == "in-progress" || s == "completed"
  {
    if s == "pending" {
      PendingKeepsEditing();
    } else if s == "in-progress" {
      InProgressLocks();
    } else if s == "completed" {
      CompletedLocks();
    } else {
      assert s == "canceled";
      CanceledNeverLocks(s);
    }
  }

  /** A canceled order never locks the session, whatever its letter case. */
  lemma CanceledNeverLocks(s: string)
    requires ToLower(s) == "canceled"
    ensures !Locks(s)
  {
  }

  class Session {
    var cart: seq<CartLine>
    var totalPrice: int
    var currentOrderId: Option<int>
    var isEditing: bool
    var originalOrder: seq<CartLine>

    ghost predicate Valid()
      reads this
    {
      WellFormed(cart) && WellFormed(originalOrder)
    }

    constructor ()
      ensures Valid()
      ensures cart == [] && totalPrice == 0 && currentOrderId == None
      ensures !isEditing && originalOrder == []
    {
      cart, totalPrice, currentOrderId := [], 0, None;
      isEditing, originalOrder := false, [];
    }

    /** The add and remove buttons are enabled before an order is placed, or while editing it. */
    predicate EditEnabled()
      reads this
    {
      currentOrderId.None? || isEditing
    }

    method HandleAddItem(item: Item)
      requires Valid()
      modifies this`cart, this`totalPrice
      ensures Valid()
      ensures cart == AddItem(old(cart), item)
      ensures totalPrice == old(totalPrice) + item.price
      ensures old(totalPrice) == CartTotal(old(cart)) && PricesAgree(old(cart), item) ==>
        totalPrice == CartTotal(cart)
    {
      AddPreservesWellFormed(cart, item);
      if PricesAgree(cart, item) {
        AddKeepsRunningTotal(cart, item);
      }
      cart := AddItem(cart, item);
      totalPrice := totalPrice + item.price;
    }

    method HandleRemoveItem(item: Item)
      requires Valid()
      modifies this`cart, this`totalPrice
      ensures Valid()
      ensures cart == RemoveItem(old(cart), item.id)
      ensures totalPrice == RemoveFromTotal(old(totalPrice), item.price)
      ensures totalPrice >= 0
      ensures old(totalPrice) == CartTotal(old(cart)) && PricesAgree(old(cart), item) && HasId(old(cart), item.id) ==>
        totalPrice == CartTotal(cart)
    {
      RemovePreservesWellFormed(cart, item.id);
      if PricesAgree(cart, item) && HasId(cart, item.id) {
        RemoveKeepsRunningTotal(cart, item);
      }
      cart := RemoveItem(cart, item.id);
      totalPrice := RemoveFromTotal(totalPrice, item.price);
    }

    /**
      Place order: an empty cart is refused without a request. Otherwise the
      cart is sent; `reply` is the order id received, or None when the request
      failed or the reply had no id.
     */
    method HandlePlaceOrder(reply: Option<int>) returns (request: Option<seq<OrderService.OrderLine>>)
      requires Valid()
      modifies this`currentOrderId, this`originalOrder, this`isEditing
      ensures Valid()
      ensures cart == old(cart) && totalPrice == old(totalPrice)
      ensures old(cart) == [] ==> request == None
      ensures old(cart) != [] ==> request == Some(RequestLines(cart))
      ensures old(cart) == [] || reply.None? ==>
        currentOrderId == old(currentOrderId) && originalOrder == old(originalOrder) && isEditing == old(isEditing)
      ensures old(cart) != [] && reply.Some? ==>
        currentOrderId == reply && originalOrder == cart && isEditing
    {
      if |cart| == 0 {
        return None;
      }
      request := Some(RequestLines(cart));
      if reply.Some? {
        currentOrderId := reply;
        originalOrder := cart;
        isEditing := true;
      }
    }

    /**
      Update order: refused without a request when no order is held or the cart
      is empty. Otherwise the cart is sent; `reply` is the total the server
      stored, or None when the request failed.
     */
    method HandleEditOrder(reply: Option<int>) returns (request: Option<seq<OrderService.OrderLine>>)
      requires Valid()
      modifies this`originalOrder, this`totalPrice
      ensures Valid()
      ensures old(currentOrderId).None? || old(cart) == [] ==> request == None
      ensures old(currentOrderId).Some? && old(cart) != [] ==> request == Some(RequestLines(cart))
      ensures request.None? || reply.None? ==>
        originalOrder == old(originalOrder) && totalPrice == old(totalPrice)
      ensures request.Some? && reply.Some? ==>
        originalOrder == cart && totalPrice == reply.value
    {
      if currentOrderId.None? || |cart| == 0 {
        return None;
      }
      request := Some(RequestLines(cart));
      if reply.Some? {
        originalOrder := cart;
        totalPrice := reply.value;
      }
    }

    /**
      Cancel edit: the cart goes back to the last confirmed one, its total is
      recomputed from scratch, and editing ends. The order id is kept, so the
      add and remove buttons stay disabled while an order is held.
     */
    method HandleCancelEdit()
      requires Valid()
      modifies this`cart, this`totalPrice, this`isEditing
      ensures Valid()
      ensures cart == old(originalOrder) && totalPrice == CartTotal(cart) && !isEditing
      ensures totalPrice >= 0
      ensures currentOrderId.Some? ==> !EditEnabled()
    {
      CartTotalNonNegative(originalOrder);
      cart := originalOrder;
      totalPrice := CartTotal(originalOrder);
      isEditing := false;
    }

    /**
      One poll: nothing happens without an order id. `reply` is the status the
      server reported, or None when the poll failed. A locking status forgets
      the order and empties both carts; the running total is left as it was.
     */
    method PollOrderStatus(reply: Option<string>)
      requires Valid()
      modifies this`currentOrderId, this`isEditing, this`cart, this`originalOrder
      ensures Valid()
      ensures totalPrice == old(totalPrice)
      ensures old(currentOrderId).None? || reply.None? || !Locks(reply.value) ==>
        currentOrderId == old(currentOrderId) && isEditing == old(isEditing)
        && cart == old(cart) && originalOrder == old(originalOrder)
      ensures old(currentOrderId).Some? && reply.Some? && Locks(reply.value) ==>
        currentOrderId == None && !isEditing && cart == [] && originalOrder == [] && EditEnabled()
    {
      if currentOrderId.None? || reply.None? {
        return;
      }
      if Locks(reply.value) {
        currentOrderId := None;
        isEditing := false;
        originalOrder := [];
        cart := [];
      }
    }
  }
}
