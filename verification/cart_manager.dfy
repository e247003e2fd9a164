/** The shopping cart kept in the browser's local storage under `cartItems`
    (source/utils/cart-manager.js). Each operation reads the stored list,
    changes it and writes it back, sending a `cartItemsChanged` event with
    every write; the stored list and the number of writes are the fields of
    `Cart`. */
module CartManager {
  import opened Wrappers

  /** An item as the catalogue passes it: `meta.itemId` (the empty string
      standing for a missing one) and the rest of the record, carried along
      unread. */
  datatype Item = Item(itemId: string, details: string)

  /** A cart entry: the item with `cart.qty` set. */
  datatype CartItem = CartItem(item: Item, qty: int)

  /** Some entry is for the id (`cartItems.some(...)`). */
  predicate InCart(items: seq<CartItem>, itemId: string) {
    exists i :: 0 <= i < |items| && items[i].item.itemId == itemId
  }

  /** `cartItems.findIndex(...)`, `None` for -1. */
  function FindIndex(items: seq<CartItem>, itemId: string): (r: Option<nat>)
    ensures r.Some? ==> r.value < |items| && items[r.value].item.itemId == itemId
    ensures r.Some? ==> forall j :: 0 <= j < r.value ==> items[j].item.itemId != itemId
    ensures r.None? <==> !InCart(items, itemId)
    decreases |items|
  {
    if |items| == 0 then None
    else if items[0].item.itemId == itemId then Some(0)
    else
      match FindIndex(items[1..], itemId)
      case None =>
        assert forall i :: 1 <= i < |items| ==> items[i].item.itemId == items[1..][i - 1].item.itemId;
        None
      case Some(k) => Some(k + 1)
  }

  /** The list `addItemToCart(item, quantity)` writes back for a valid item:
      the first entry for its id gains the quantity, or a new entry with that
      quantity is appended. */
  function Added(items: seq<CartItem>, item: Item, quantity: int): seq<CartItem> {
    match FindIndex(items, item.itemId)
    case Some(k) => items[k := items[k].(qty := items[k].qty + quantity)]
    case None => items + [CartItem(item, quantity)]
  }

  /** `cartItems.filter(item => item.meta.itemId !== itemId)`. */
  function Removed(items: seq<CartItem>, itemId: string): seq<CartItem> {
    if |items| == 0 then []
    else (if items[0].item.itemId == itemId then [] else [items[0]]) + Removed(items[1..], itemId)
  }

  /** Adding keeps the id in the cart; an id already there keeps the length
      and raises the first entry's quantity, and a new id adds one entry at
      the end; no other entry changes. */
  lemma AddedSpec(items: seq<CartItem>, item: Item, quantity: int)
    ensures InCart(Added(items, item, quantity), item.itemId)
    ensures InCart(items, item.itemId) ==>
      var k := FindIndex(items, item.itemId).value;
      && |Added(items, item, quantity)| == |items|
      && Added(items, item, quantity)[k].qty == items[k].qty + quantity
      && Added(items, item, quantity)[k].item == items[k].item
      && forall i :: 0 <= i < |items| && i != k ==> Added(items, item, quantity)[i] == items[i]
    ensures !InCart(items, item.itemId) ==>
      Added(items, item, quantity) == items + [CartItem(item, quantity)]
  {
    var r := Added(items, item, quantity);
    match FindIndex(items, item.itemId)
    case Some(k) =>
      assert r[k].item.itemId == item.itemId;
    case None =>
      assert r[|items|].item.itemId == item.itemId;
  }

  /** The filter drops exactly the entries for the id, and so shortens the
      cart exactly when the id is in it. */
  lemma {:induction false} RemovedSpec(items: seq<CartItem>, itemId: string)
    ensures !InCart(Removed(items, itemId), itemId)
    ensures forall e :: e in Removed(items, itemId) <==> e in items && e.item.itemId != itemId
    ensures |Removed(items, itemId)| < |items| <==> InCart(items, itemId)
    ensures !InCart(items, itemId) ==> Removed(items, itemId) == items
    decreases |items|
  {
    if |items| > 0 {
      var tail := items[1..];
      RemovedSpec(tail, itemId);
      assert items == [items[0]] + tail;
      if InCart(tail, itemId) {
        var i :| 0 <= i < |tail| && tail[i].item.itemId == itemId;
        assert items[i + 1].item.itemId == itemId;
      }
      if InCart(items, itemId) && items[0].item.itemId != itemId {
        var i :| 0 <= i < |items| && items[i].item.itemId == itemId;
        assert tail[i - 1].item.itemId == itemId;
      }
    }
  }

  /** Adding an id that is not in the cart and then toggling it again gives
      back the cart it started from. */
  lemma {:induction false} ToggleTwice(items: seq<CartItem>, item: Item)
    requires !InCart(items, item.itemId)
    ensures Removed(Added(items, item, 1), item.itemId) == items
    decreases |items|
  {
    var entry := CartItem(item, 1);
    var added := items + [entry];
    assert Added(items, item, 1) == added;
    if |items| > 0 {
      ToggleTwice(items[1..], item);
      assert !InCart(items[1..], item.itemId);
      assert Added(items[1..], item, 1) == items[1..] + [entry];
      assert added[1..] == items[1..] + [entry];
      assert items[0].item.itemId != item.itemId;
    } else {
      assert added[1..] == [];
    }
  }

  /** The list `updateItemQuantity` writes back when the id is at `k`: a
      positive quantity is set there, anything else removes that one entry. */
  function WithQuantity(items: seq<CartItem>, k: nat, newQuantity: int): seq<CartItem>
    requires k < |items|
  {
    if newQuantity > 0 then items[k := items[k].(qty := newQuantity)]
    else items[..k] + items[k + 1..]
  }

  /** A positive quantity changes only the first entry's quantity; any other
      drops that entry alone, so later entries for the same id stay. */
  lemma WithQuantitySpec(items: seq<CartItem>, itemId: string, newQuantity: int)
    requires InCart(items, itemId)
    ensures var k := FindIndex(items, itemId).value;
      var r := WithQuantity(items, k, newQuantity);
      && (newQuantity > 0 ==>
            |r| == |items| && r[k] == CartItem(items[k].item, newQuantity)
            && forall i :: 0 <= i < |items| && i != k ==> r[i] == items[i])
      && (newQuantity <= 0 ==>
            |r| == |items| - 1
            && (forall i :: 0 <= i < k ==> r[i] == items[i])
            && (forall i :: k <= i < |r| ==> r[i] == items[i + 1]))
  {
    var k := FindIndex(items, itemId).value;
    if newQuantity > 0 {
      SetAt(items, k, newQuantity);
    } else {
      DropAt(items, k);
    }
  }

  lemma SetAt(items: seq<CartItem>, k: nat, newQuantity: int)
    requires k < |items| && newQuantity > 0
    ensures var r := WithQuantity(items, k, newQuantity);
      |r| == |items| && r[k] == CartItem(items[k].item, newQuantity)
      && forall i :: 0 <= i < |items| && i != k ==> r[i] == items[i]
  {
  }

  lemma DropAt(items: seq<CartItem>, k: nat)
    requires k < |items|
    ensures var r := WithQuantity(items, k, 0);
      |r| == |items| - 1
      && (forall i :: 0 <= i < k ==> r[i] == items[i])
      && (forall i :: k <= i < |r| ==> r[i] == items[i + 1])
  {
  }

  class Cart {
    /** The list stored under `cartItems`. */
    var items: seq<CartItem>
    /** How many times the cart has been written back (one
        `cartItemsChanged` event each). */
    var saves: nat

    constructor (stored: seq<CartItem>)
      ensures items == stored && saves == 0
    {
      items := stored;
      saves := 0;
    }

    /** `saveCartToLocalStorage(cartItems)`. */
    method Save(cartItems: seq<CartItem>)
      modifies this
      ensures items == cartItems && saves == old(saves) + 1
    {
      items := cartItems;
      saves := saves + 1;
    }

    /** `isItemInCart(itemId)`. */
    method IsItemInCart(itemId: string) returns (inCart: bool)
      ensures inCart <==> InCart(items, itemId)
    {
      var i := 0;
      while i < |items|
        invariant 0 <= i <= |items|
        invariant forall j :: 0 <= j < i ==> items[j].item.itemId != itemId
      {
        if items[i].item.itemId == itemId {
          return true;
        }
        i := i + 1;
      }
      return false;
    }

    /** `addItemToCart(item, quantity)`: an item without an id leaves the
        cart alone; otherwise the quantity is added and the cart written. */
    method AddItemToCart(item: Item, quantity: int)
      modifies this
      ensures item.itemId == "" ==> items == old(items) && saves == old(saves)
      ensures item.itemId != "" ==> items == Added(old(items), item, quantity) && saves == old(saves) + 1
    {
      if item.itemId == "" {
        return;
      }
      var cartItems := items;
      var existingItemIndex := FindIndex(cartItems, item.itemId);
      if existingItemIndex.Some? {
        var k := existingItemIndex.value;
        cartItems := cartItems[k := cartItems[k].(qty := cartItems[k].qty + quantity)];
      } else {
        cartItems := cartItems + [CartItem(item, quantity)];
      }
      Save(cartItems);
    }

    /** `removeItemFromCart(itemId)`: every entry for the id goes, and the
        cart is written only when that removed something. */
    method RemoveItemFromCart(itemId: string)
      modifies this
      ensures InCart(old(items), itemId) ==> items == Removed(old(items), itemId) && saves == old(saves) + 1
      ensures !InCart(old(items), itemId) ==> items == old(items) && saves == old(saves)
    {
      var initialLength := |items|;
      RemovedSpec(items, itemId);
      var cartItems := Removed(items, itemId);
      if |cartItems| < initialLength {
        Save(cartItems);
      }
    }

    /** `updateItemQuantity(itemId, newQuantity)`: a missing id changes
        nothing; otherwise the first entry's quantity is set, or that entry
        removed for a quantity of at most 0, and the cart written. */
    method UpdateItemQuantity(itemId: string, newQuantity: int)
      modifies this
      ensures FindIndex(old(items), itemId).Some? ==>
        items == WithQuantity(old(items), FindIndex(old(items), itemId).value, newQuantity)
        && saves == old(saves) + 1
      ensures FindIndex(old(items), itemId).None? ==> items == old(items) && saves == old(saves)
    {
      var cartItems := items;
      var existingItemIndex := FindIndex(cartItems, itemId);
      if existingItemIndex.Some? {
        var k := existingItemIndex.value;
        if newQuantity > 0 {
          cartItems := cartItems[k := cartItems[k].(qty := newQuantity)];
        } else {
          cartItems := cartItems[..k] + cartItems[k + 1..];
        }
        Save(cartItems);
      }
    }

    /** `clearCart()`. */
    method ClearCart()
      modifies this
      ensures items == [] && saves == old(saves) + 1
    {
      Save([]);
    }

    /** `toggleCartItem(item)`: an item in the cart is removed, any other is
        added once. */
    method ToggleCartItem(item: Item)
      modifies this
      ensures InCart(old(items), item.itemId) ==>
        items == Removed(old(items), item.itemId) && saves == old(saves) + 1
      ensures !InCart(old(items), item.itemId) && item.itemId != "" ==>
        items == Added(old(items), item, 1) && saves == old(saves) + 1
      ensures !InCart(old(items), item.itemId) && item.itemId == "" ==>
        items == old(items) && saves == old(saves)
    {
      var inCart := IsItemInCart(item.itemId);
      if inCart {
        RemoveItemFromCart(item.itemId);
      } else {
        AddItemToCart(item, 1);
      }
    }
  }
}
