/**
  The guest's cart in the order form: a list of lines, each an item snapshot and
  a quantity, keyed by item id. Adding increments or appends; removing
  decrements or drops the line. Prices are in cents.
 */
module Cart {
  import opened Wrappers
  import opened Sequences

  datatype Item = Item(id: int, name: string, price: nat, course: Option<string>)

  datatype CartLine = CartLine(item: Item, quantity: int)

  predicate HasId(cart: seq<CartLine>, id: int) {
    exists i :: 0 <= i < |cart| && cart[i].item.id == id
  }

  /** At most one line per item id. */
  predicate UniqueIds(cart: seq<CartLine>) {
    forall i, j :: 0 <= i < j < |cart| ==> cart[i].item.id != cart[j].item.id
  }

  predicate PositiveQuantities(cart: seq<CartLine>) {
    forall i :: 0 <= i < |cart| ==> cart[i].quantity >= 1
  }

  /** What add and remove keep: one line per id, each with a positive quantity. */
  predicate WellFormed(cart: seq<CartLine>) {
    UniqueIds(cart) && PositiveQuantities(cart)
  }

  /** Lines for `item`'s id carry `item`'s price (the menu is fetched once). */
  predicate PricesAgree(cart: seq<CartLine>, item: Item) {
    forall i :: 0 <= i < |cart| && cart[i].item.id == item.id ==> cart[i].item.price == item.price
  }

  /** The sum of price times quantity, computed from scratch. */
  function CartTotal(cart: seq<CartLine>): int {
    if cart == [] then 0 else cart[0].item.price * cart[0].quantity + CartTotal(cart[1..])
  }

  /** Line `k` is the first line with item id `id`. */
  predicate FirstWithId(cart: seq<CartLine>, id: int, k: int) {
    0 <= k < |cart| && cart[k].item.id == id && forall j :: 0 <= j < k ==> cart[j].item.id != id
  }

  /** The first line with item id `id`, if any. */
  function Find(cart: seq<CartLine>, id: int): (r: Option<CartLine>)
    ensures r.None? <==> !HasId(cart, id)
    ensures r.Some? ==> r.value in cart && r.value.item.id == id
    ensures forall k :: FirstWithId(cart, id, k) ==> r == Some(cart[k])
  {
    if cart == [] then None
    else if cart[0].item.id == id then
      Some(cart[0])
    else
      HasIdCons(cart, id);
      assert forall k :: FirstWithId(cart, id, k) ==> FirstWithId(cart[1..], id, k - 1);
      Find(cart[1..], id)
  }

  /** Adds `delta` to the quantity of every line with item id `id`. */
  function Bump(cart: seq<CartLine>, id: int, delta: int): (r: seq<CartLine>)
    ensures |r| == |cart|
    ensures forall i :: 0 <= i < |r| ==>
      r[i].item == cart[i].item
      && r[i].quantity == cart[i].quantity + (if cart[i].item.id == id then delta else 0)
  {
    if cart == [] then []
    else
      var line := cart[0];
      [if line.item.id == id then line.(quantity := line.quantity + delta) else line] + Bump(cart[1..], id, delta)
  }

  /** The number of lines with item id `id`. */
  function IdCount(cart: seq<CartLine>, id: int): nat {
    if cart == [] then 0 else (if cart[0].item.id == id then 1 else 0) + IdCount(cart[1..], id)
  }

  /** The lines whose item id is not `id`, in order. */
  function Without(cart: seq<CartLine>, id: int): (r: seq<CartLine>)
    ensures |r| <= |cart|
    ensures forall l :: l in r <==> l in cart && l.item.id != id
  {
    if cart == [] then []
    else (if cart[0].item.id == id then [] else [cart[0]]) + Without(cart[1..], id)
  }

  /**
    `Without` is the order-keeping filter: a subsequence of the cart with only
    other ids and as many lines as the cart has with other ids, so every line of
    another id is kept, in cart order.
   */
  lemma {:induction false} WithoutIsFilter(cart: seq<CartLine>, id: int)
    ensures IsSubsequence(Without(cart, id), cart)
    ensures |Without(cart, id)| == |cart| - IdCount(cart, id)
  {
    if cart != [] {
      var rest := Without(cart[1..], id);
      WithoutIsFilter(cart[1..], id);
      assert cart == [cart[0]] + cart[1..];
      if cart[0].item.id == id {
        assert Without(cart, id) == rest;
        SubsequenceConsRight(cart[0], rest, cart[1..]);
      } else {
        assert Without(cart, id) == [cart[0]] + rest;
        SubsequenceConsBoth(cart[0], rest, cart[1..]);
      }
    }
  }

  /** The add button: one more of an item already in the cart, or a new line of one. */
  function AddItem(cart: seq<CartLine>, item: Item): seq<CartLine> {
    if Find(cart, item.id).Some? then Bump(cart, item.id, 1) else cart + [CartLine(item, 1)]
  }

  /**
    The remove button: one fewer when the first line with that id has more than
    one, otherwise every line with that id is dropped.
   */
  function RemoveItem(cart: seq<CartLine>, id: int): seq<CartLine> {
    var existing := Find(cart, id);
    if existing.Some? && existing.value.quantity > 1 then Bump(cart, id, -1) else Without(cart, id)
  }

  /**
    Adding increments the quantity of the line with that id and leaves every
    other line as it was, or appends a line of quantity one at the end.
   */
  lemma AddItemEffect(cart: seq<CartLine>, item: Item)
    ensures HasId(AddItem(cart, item), item.id)
    ensures Without(AddItem(cart, item), item.id) == Without(cart, item.id)
    ensures HasId(cart, item.id) ==>
      var r := AddItem(cart, item);
      |r| == |cart|
      && forall i :: 0 <= i < |cart| ==>
           r[i].item == cart[i].item
           && r[i].quantity == cart[i].quantity + (if cart[i].item.id == item.id then 1 else 0)
    ensures !HasId(cart, item.id) ==> AddItem(cart, item) == cart + [CartLine(item, 1)]
  {
    if HasId(cart, item.id) {
      AddExisting(cart, item);
    } else {
      AddNew(cart, item);
    }
  }

  lemma AddExisting(cart: seq<CartLine>, item: Item)
    requires HasId(cart, item.id)
    ensures AddItem(cart, item) == Bump(cart, item.id, 1)
    ensures HasId(AddItem(cart, item), item.id)
    ensures Without(AddItem(cart, item), item.id) == Without(cart, item.id)
  {
    var f := Find(cart, item.id);
    assert f.Some?;
    var r := Bump(cart, item.id, 1);
    var i :| 0 <= i < |cart| && cart[i].item.id == item.id;
    assert r[i].item.id == item.id;
    WithoutBump(cart, item.id, 1);
  }

  lemma AddNew(cart: seq<CartLine>, item: Item)
    requires !HasId(cart, item.id)
    ensures AddItem(cart, item) == cart + [CartLine(item, 1)]
    ensures HasId(AddItem(cart, item), item.id)
    ensures Without(AddItem(cart, item), item.id) == Without(cart, item.id)
  {
    var r := cart + [CartLine(item, 1)];
    assert r[|cart|].item.id == item.id;
    WithoutAppend(cart, [CartLine(item, 1)], item.id);
    assert Without([CartLine(item, 1)], item.id) == [];
    assert cart + [] == cart;
  }

  /**
    Removing decrements the line with that id when its quantity exceeds one;
    otherwise no line with that id is left. Other lines are untouched, and an
    absent id leaves the cart as it was.
   */
  lemma RemoveItemEffect(cart: seq<CartLine>, id: int)
    ensures Without(RemoveItem(cart, id), id) == Without(cart, id)
    ensures !HasId(cart, id) ==> RemoveItem(cart, id) == cart
    ensures (Find(cart, id).Some? && Find(cart, id).value.quantity > 1) ==>
      var r := RemoveItem(cart, id);
      |r| == |cart|
      && forall i :: 0 <= i < |cart| ==>
           r[i].item == cart[i].item
           && r[i].quantity == cart[i].quantity - (if cart[i].item.id == id then 1 else 0)
    ensures !(Find(cart, id).Some? && Find(cart, id).value.quantity > 1) ==> !HasId(RemoveItem(cart, id), id)
  {
    var existing := Find(cart, id);
    if existing.Some? && existing.value.quantity > 1 {
      WithoutBump(cart, id, -1);
    } else {
      WithoutRemovesId(cart, id);
      WithoutAbsent(Without(cart, id), id);
      if !HasId(cart, id) {
        WithoutAbsent(cart, id);
      }
    }
  }

  /** The running total after a removal: `Math.max(total - price, 0)`. */
  function RemoveFromTotal(total: int, price: nat): (r: int)
    ensures r >= 0
    ensures r >= total - price
    ensures r == total - price || r == 0
  {
    if total - price > 0 then total - price else 0
  }

  // ---------------------------------------------------------------------------
  // Helper lemmas about Bump and Without

  lemma {:induction false} WithoutBump(cart: seq<CartLine>, id: int, delta: int)
    ensures Without(Bump(cart, id, delta), id) == Without(cart, id)
  {
    if cart != [] {
      assert Bump(cart, id, delta)[1..] == Bump(cart[1..], id, delta);
      WithoutBump(cart[1..], id, delta);
    }
  }

  lemma {:induction false} WithoutAppend(a: seq<CartLine>, b: seq<CartLine>, id: int)
    ensures Without(a + b, id) == Without(a, id) + Without(b, id)
  {
    if a == [] {
      assert a + b == b;
    } else {
      assert (a + b)[0] == a[0];
      assert (a + b)[1..] == a[1..] + b;
      WithoutAppend(a[1..], b, id);
    }
  }

  lemma {:induction false} WithoutAbsent(cart: seq<CartLine>, id: int)
    requires !HasId(cart, id)
    ensures Without(cart, id) == cart
  {
    if cart != [] {
      assert cart[0].item.id != id;
      HasIdCons(cart, id);
      WithoutAbsent(cart[1..], id);
      assert cart == [cart[0]] + cart[1..];
    }
  }

  lemma WithoutRemovesId(cart: seq<CartLine>, id: int)
    ensures !HasId(Without(cart, id), id)
  {
    var r := Without(cart, id);
    forall i | 0 <= i < |r|
      ensures r[i].item.id != id
    {
      assert r[i] in r;
    }
  }

  lemma {:induction false} WithoutUnique(cart: seq<CartLine>, id: int)
    requires UniqueIds(cart)
    ensures UniqueIds(Without(cart, id))
  {
    if cart != [] {
      WithoutUnique(cart[1..], id);
      var rest := Without(cart[1..], id);
      if cart[0].item.id != id {
        forall l | l in rest
          ensures l.item.id != cart[0].item.id
        {
          var k :| 0 <= k < |cart[1..]| && cart[1..][k] == l;
          assert cart[k + 1] == l;
        }
        var r := Without(cart, id);
        assert r == [cart[0]] + rest;
        forall i, j | 0 <= i < j < |r|
          ensures r[i].item.id != r[j].item.id
        {
          if i == 0 {
            assert r[j] == rest[j - 1];
            assert rest[j - 1] in rest;
          } else {
            assert r[i] == rest[i - 1] && r[j] == rest[j - 1];
          }
        }
      } else {
        assert Without(cart, id) == rest;
      }
    }
  }

  lemma {:induction false} WithoutPositive(cart: seq<CartLine>, id: int)
    requires PositiveQuantities(cart)
    ensures PositiveQuantities(Without(cart, id))
  {
    var r := Without(cart, id);
    forall i | 0 <= i < |r|
      ensures r[i].quantity >= 1
    {
      assert r[i] in r;
      var k :| 0 <= k < |cart| && cart[k] == r[i];
    }
  }

  lemma {:induction false} CartTotalNonNegative(cart: seq<CartLine>)
    requires PositiveQuantities(cart)
    ensures CartTotal(cart) >= 0
  {
    if cart != [] {
      CartTotalNonNegative(cart[1..]);
      assert cart[0].item.price * cart[0].quantity >= 0;
    }
  }

  /** The only line with id `id` is at index `k`; the rest of the cart does not mention `id`. */
  lemma {:induction false} UniqueIndex(cart: seq<CartLine>, id: int, k: int)
    requires UniqueIds(cart) && 0 <= k < |cart| && cart[k].item.id == id
    ensures forall i :: 0 <= i < |cart| && i != k ==> cart[i].item.id != id
  {
  }

  lemma HasIdCons(cart: seq<CartLine>, id: int)
    requires cart != []
    ensures HasId(cart, id) <==> cart[0].item.id == id || HasId(cart[1..], id)
  {
    if HasId(cart, id) {
      var i :| 0 <= i < |cart| && cart[i].item.id == id;
      if i > 0 {
        assert cart[1..][i - 1] == cart[i];
      }
    }
    if HasId(cart[1..], id) {
      var i :| 0 <= i < |cart[1..]| && cart[1..][i].item.id == id;
      assert cart[i + 1] == cart[1..][i];
    }
  }

  /** In a cart with unique ids, the id of the first line does not occur again. */
  lemma HeadIdNotInTail(cart: seq<CartLine>)
    requires cart != [] && UniqueIds(cart)
    ensures !HasId(cart[1..], cart[0].item.id)
  {
    forall i | 0 <= i < |cart[1..]|
      ensures cart[1..][i].item.id != cart[0].item.id
    {
      assert cart[1..][i] == cart[i + 1];
    }
  }

  /**
    With one line of that id, bumping it by `delta` moves the total by
    `delta` times its price.
   */
  lemma {:induction false} CartTotalBump(cart: seq<CartLine>, item: Item, delta: int)
    requires UniqueIds(cart) && PricesAgree(cart, item)
    ensures CartTotal(Bump(cart, item.id, delta)) == CartTotal(cart) + (if HasId(cart, item.id) then item.price * delta else 0)
  {
    if cart != [] {
      var b := Bump(cart, item.id, delta);
      assert b[1..] == Bump(cart[1..], item.id, delta);
      assert UniqueIds(cart[1..]);
      assert PricesAgree(cart[1..], item);
      CartTotalBump(cart[1..], item, delta);
      HasIdCons(cart, item.id);
      var p, q := cart[0].item.price, cart[0].quantity;
      if cart[0].item.id == item.id {
        HeadIdNotInTail(cart);
        assert p == item.price;
        assert p * (q + delta) == p * q + p * delta;
      }
    }
  }

  /** Dropping the lines of an id takes their price times quantity off the total. */
  lemma {:induction false} CartTotalWithout(cart: seq<CartLine>, id: int, k: int)
    requires UniqueIds(cart) && 0 <= k < |cart| && cart[k].item.id == id
    ensures CartTotal(Without(cart, id)) == CartTotal(cart) - cart[k].item.price * cart[k].quantity
  {
    if k == 0 {
      HeadIdNotInTail(cart);
      WithoutAbsent(cart[1..], id);
      assert Without(cart, id) == Without(cart[1..], id);
    } else {
      assert UniqueIds(cart[1..]);
      assert cart[1..][k - 1] == cart[k];
      CartTotalWithout(cart[1..], id, k - 1);
    }
  }

  lemma BumpInverse(cart: seq<CartLine>, id: int, delta: int)
    ensures Bump(Bump(cart, id, delta), id, -delta) == cart
  {
    var r := Bump(Bump(cart, id, delta), id, -delta);
    assert forall i :: 0 <= i < |cart| ==> r[i] == cart[i];
  }

  // ---------------------------------------------------------------------------
  // Properties of add and remove

  /** Adding keeps at most one line per id and every quantity positive. */
  lemma AddPreservesWellFormed(cart: seq<CartLine>, item: Item)
    requires WellFormed(cart)
    ensures WellFormed(AddItem(cart, item))
  {
    var r := AddItem(cart, item);
    if HasId(cart, item.id) {
      assert forall i :: 0 <= i < |r| ==> r[i].item.id == cart[i].item.id;
    }
  }

  /** Removing keeps at most one line per id and every quantity positive. */
  lemma RemovePreservesWellFormed(cart: seq<CartLine>, id: int)
    requires WellFormed(cart)
    ensures WellFormed(RemoveItem(cart, id))
  {
    var r := RemoveItem(cart, id);
    var f := Find(cart, id);
    if f.Some? && f.value.quantity > 1 {
      var k :| 0 <= k < |cart| && cart[k] == f.value;
      UniqueIndex(cart, id, k);
      assert forall i :: 0 <= i < |r| ==> r[i].item.id == cart[i].item.id;
    } else {
      WithoutUnique(cart, id);
      WithoutPositive(cart, id);
    }
  }

  /** Adding an item and then removing it restores both the lines and the running total. */
  lemma AddThenRemoveRestores(cart: seq<CartLine>, item: Item, total: int)
    requires PositiveQuantities(cart) && total >= 0
    ensures RemoveItem(AddItem(cart, item), item.id) == cart
    ensures RemoveFromTotal(total + item.price, item.price) == total
  {
    var added := AddItem(cart, item);
    var f := Find(added, item.id);
    var k :| 0 <= k < |added| && added[k] == f.value;
    if HasId(cart, item.id) {
      assert added == Bump(cart, item.id, 1);
      assert added[k].quantity == cart[k].quantity + 1;
      assert RemoveItem(added, item.id) == Bump(added, item.id, -1);
      BumpInverse(cart, item.id, 1);
    } else {
      assert added == cart + [CartLine(item, 1)];
      assert forall x :: x in cart ==> x.item.id != item.id;
      assert f.value == CartLine(item, 1);
      assert RemoveItem(added, item.id) == Without(added, item.id);
      WithoutAppend(cart, [CartLine(item, 1)], item.id);
      assert Without([CartLine(item, 1)], item.id) == [];
      WithoutAbsent(cart, item.id);
      assert cart + [] == cart;
    }
  }

  /** The running total after an add equals the total recomputed from scratch. */
  lemma AddKeepsRunningTotal(cart: seq<CartLine>, item: Item)
    requires UniqueIds(cart) && PricesAgree(cart, item)
    ensures CartTotal(AddItem(cart, item)) == CartTotal(cart) + item.price
  {
    if HasId(cart, item.id) {
      CartTotalBump(cart, item, 1);
    } else {
      CartTotalAppend(cart, [CartLine(item, 1)]);
      assert CartTotal([CartLine(item, 1)]) == item.price;
    }
  }

  lemma PriceTimesPositive(p: nat, q: int)
    requires q >= 1
    ensures p * q >= p
  {
    assert p * q == p + p * (q - 1);
  }

  /**
    Removing one of a line that is in the cart takes exactly its price off the
    total, and the total never needs the clamp at zero.
   */
  lemma RemoveKeepsRunningTotal(cart: seq<CartLine>, item: Item)
    requires WellFormed(cart) && PricesAgree(cart, item) && HasId(cart, item.id)
    ensures CartTotal(cart) >= item.price
    ensures CartTotal(RemoveItem(cart, item.id)) == CartTotal(cart) - item.price
    ensures RemoveFromTotal(CartTotal(cart), item.price) == CartTotal(RemoveItem(cart, item.id))
  {
    RemoveTakesPrice(cart, item);
  }

  lemma RemoveTakesPrice(cart: seq<CartLine>, item: Item)
    requires WellFormed(cart) && PricesAgree(cart, item) && HasId(cart, item.id)
    ensures CartTotal(cart) >= item.price
    ensures CartTotal(RemoveItem(cart, item.id)) == CartTotal(cart) - item.price
  {
    var k := FoundIndex(cart, item.id);
    TotalCoversLine(cart, item, k);
    if cart[k].quantity > 1 {
      RemoveDecrements(cart, item, k);
    } else {
      assert cart[k].quantity == 1;
      RemoveLastOne(cart, item, k);
    }
  }

  lemma FoundIndex(cart: seq<CartLine>, id: int) returns (k: int)
    requires HasId(cart, id)
    ensures 0 <= k < |cart| && Find(cart, id) == Some(cart[k])
  {
    var f := Find(cart, id);
    k :| 0 <= k < |cart| && cart[k] == f.value;
  }

  /** A line in the cart contributes at least its unit price to the total. */
  lemma TotalCoversLine(cart: seq<CartLine>, item: Item, k: int)
    requires WellFormed(cart) && PricesAgree(cart, item)
    requires 0 <= k < |cart| && cart[k].item.id == item.id
    ensures CartTotal(cart) >= item.price
  {
    WithoutPositive(cart, item.id);
    CartTotalNonNegative(Without(cart, item.id));
    CartTotalWithout(cart, item.id, k);
    PriceTimesPositive(item.price, cart[k].quantity);
  }

  lemma RemoveLastOne(cart: seq<CartLine>, item: Item, k: int)
    requires UniqueIds(cart) && PricesAgree(cart, item)
    requires 0 <= k < |cart| && Find(cart, item.id) == Some(cart[k]) && cart[k].quantity == 1
    ensures CartTotal(RemoveItem(cart, item.id)) == CartTotal(cart) - item.price
  {
    assert RemoveItem(cart, item.id) == Without(cart, item.id);
    CartTotalWithout(cart, item.id, k);
  }

  lemma RemoveDecrements(cart: seq<CartLine>, item: Item, k: int)
    requires UniqueIds(cart) && PricesAgree(cart, item)
    requires 0 <= k < |cart| && Find(cart, item.id) == Some(cart[k]) && cart[k].quantity > 1
    ensures CartTotal(RemoveItem(cart, item.id)) == CartTotal(cart) - item.price
  {
    var existing := Find(cart, item.id);
    assert existing.Some? && existing.value.quantity > 1;
    assert HasId(cart, item.id);
    CartTotalBump(cart, item, -1);
    assert RemoveItem(cart, item.id) == Bump(cart, item.id, -1);
  }

  lemma {:induction false} CartTotalAppend(a: seq<CartLine>, b: seq<CartLine>)
    ensures CartTotal(a + b) == CartTotal(a) + CartTotal(b)
  {
    if a == [] {
      assert a + b == b;
    } else {
      assert (a + b)[0] == a[0];
      assert (a + b)[1..] == a[1..] + b;
      CartTotalAppend(a[1..], b);
    }
  }
}
