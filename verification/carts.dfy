/**
 * The cart handlers of clothes/views.py as functions from the store before the
 * request to the store after it and the handler's answer: `add_to_cart`
 * (lines 244-291), `remove_from_cart` (295-331) and `change_product_quantity`
 * (336-376). The handler bodies themselves, step by step, are the methods of
 * `Views.Store`.
 */
module Carts {
  import opened Shop

  /** `add_to_cart`'s answer: the product's name and the line's new quantity. */
  datatype Added = Added(name: string, quantity: nat)

  /** `change_product_quantity`'s answer: the number of lines, the product's name and the line's quantity. */
  datatype Changed = Changed(lineCount: nat, name: string, quantity: nat)

  /** `Cart.objects.get_or_create(user=uid)`. */
  function GetOrCreateCart(carts: map<UserId, Cart>, uid: UserId): map<UserId, Cart> {
    if uid in carts then carts else carts[uid := NewCart()]
  }

  /** The line quantity `add_to_cart` writes: the old quantity plus the request, or the request. */
  function AddedQuantity(lines: seq<CartItem>, pid: ProductId, quantity: nat): nat {
    match FindLine(lines, pid)
    case Some(i) => lines[i].quantity + quantity
    case None => quantity
  }

  /** The cart after `add_to_cart` has saved the line and then the cart (views.py:261-277). */
  function AddedCart(cart: Cart, pid: ProductId, quantity: nat, price: nat): Cart {
    var found := FindLine(cart.lines, pid);
    var i := if found.Some? then found.value else |cart.lines|;
    var line := if found.Some? then cart.lines[i].(quantity := AddedQuantity(cart.lines, pid, quantity))
                else CartItem(pid, quantity, 0);
    SavedCart(cart.(lines := Put(cart.lines, i, SavedCartItem(line, price)), products := cart.products + {pid}))
  }

  function AddToCart(db: Db, uid: UserId, clothesId: Option<nat>, quantity: nat): Step<Added> {
    var carts := GetOrCreateCart(db.carts, uid);
    var db0 := db.(carts := carts);
    if !Truthy(clothesId) then Step(db0, Err(MissingProductId))
    else if clothesId.value !in db.catalog then Step(db0, Err(ProductNotFound))
    else if db.catalog[clothesId.value].stock < quantity then Step(db0, Err(InsufficientStock))
    else
      var pid := clothesId.value;
      var product := db.catalog[pid];
      var cart := carts[uid];
      Step(db.(carts := carts[uid := AddedCart(cart, pid, quantity, product.price)]),
           Ok(Added(product.name, AddedQuantity(cart.lines, pid, quantity))))
  }

  function RemoveFromCart(db: Db, uid: UserId, clothesId: Option<nat>): Step<string> {
    if uid !in db.carts then Step(db, Err(CartNotFound))
    else if !Truthy(clothesId) then Step(db, Err(MissingProductId))
    else if clothesId.value !in db.catalog then Step(db, Err(ProductNotFound))
    else
      var pid := clothesId.value;
      var cart := db.carts[uid];
      match FindLine(cart.lines, pid)
      case None => Step(db, Err(LineNotFound))
      case Some(i) =>
        var cart' := SavedCart(cart.(lines := RemoveAt(cart.lines, i), products := cart.products - {pid}));
        Step(db.(carts := db.carts[uid := cart']), Ok(db.catalog[pid].name))
  }

  function ChangeProductQuantity(db: Db, uid: UserId, clothesId: Option<nat>, newQuantity: Option<nat>): Step<Changed> {
    if uid !in db.carts then Step(db, Err(CartNotFound))
    else if !Truthy(clothesId) || !Truthy(newQuantity) then Step(db, Err(MissingIdOrQuantity))
    else if clothesId.value !in db.catalog then Step(db, Err(ProductNotFound))
    else
      var pid := clothesId.value;
      var cart := db.carts[uid];
      match FindLine(cart.lines, pid)
      case None => Step(db, Err(LineNotFound))
      case Some(i) =>
        var line := SavedCartItem(cart.lines[i].(quantity := newQuantity.value), db.catalog[pid].price);
        var cart' := SavedCart(cart.(lines := cart.lines[i := line]));
        Step(db.(carts := db.carts[uid := cart']), Ok(Changed(|cart'.lines|, db.catalog[pid].name, line.quantity)))
  }

  // ------------------------------------------------------------------ lemmas

  /** Replacing one cart by a cart that agrees with the catalog keeps the store consistent. */
  lemma ReplaceCartConsistent(db: Db, uid: UserId, c: Cart)
    requires Consistent(db) && CartAgrees(c, db.catalog)
    ensures Consistent(db.(carts := db.carts[uid := c]))
  {
  }

  /**
   * `add_to_cart` accepts exactly when the id is given, the product exists and
   * its stock covers the REQUESTED quantity, whatever the cart already holds;
   * otherwise the only change is the cart `get_or_create` may have made. It
   * never touches the catalog, the orders or any other user's cart.
   */
  lemma AddToCartAcceptance(db: Db, uid: UserId, clothesId: Option<nat>, quantity: nat)
    ensures var s := AddToCart(db, uid, clothesId, quantity);
            && (s.result.Ok? <==>
                 Truthy(clothesId) && clothesId.value in db.catalog && quantity <= db.catalog[clothesId.value].stock)
            && (!Truthy(clothesId) ==> s.result == Err(MissingProductId))
            && (Truthy(clothesId) && clothesId.value !in db.catalog ==> s.result == Err(ProductNotFound))
            && ((Truthy(clothesId) && clothesId.value in db.catalog && db.catalog[clothesId.value].stock < quantity) ==>
                  s.result == Err(InsufficientStock))
            && (s.result.Err? ==> s.db == db.(carts := GetOrCreateCart(db.carts, uid)))
            && s.db.catalog == db.catalog && s.db.orders == db.orders
            && s.db.users == db.users && s.db.payments == db.payments
            && s.db.carts.Keys == db.carts.Keys + {uid}
            && (forall u :: u in db.carts && u != uid ==> s.db.carts[u] == db.carts[u])
            && (uid in db.carts && s.result.Err? ==> s.db == db)
  {
  }

  /**
   * Adding to a cart raises the quantity of the product by exactly the
   * requested amount (a new line gets it, an existing line is incremented by
   * it), records the product in `products`, and leaves every other product's
   * quantity alone.
   */
  lemma AddedCartLine(cart: Cart, pid: ProductId, quantity: nat, price: nat)
    ensures var after := AddedCart(cart, pid, quantity, price);
            && QuantityOf(after.lines, pid) == QuantityOf(cart.lines, pid) + quantity
            && (forall p :: p != pid ==> QuantityOf(after.lines, p) == QuantityOf(cart.lines, p))
            && after.products == cart.products + {pid}
  {
    var line' := SavedCartItem(
      match FindLine(cart.lines, pid)
      case Some(i) => cart.lines[i].(quantity := cart.lines[i].quantity + quantity)
      case None => CartItem(pid, quantity, 0),
      price);
    match FindLine(cart.lines, pid)
    case Some(i) =>
      forall p ensures QuantityOf(cart.lines[i := line'], p) ==
                       if p == pid then QuantityOf(cart.lines, p) + quantity else QuantityOf(cart.lines, p)
      {
        QuantityOfUpdate(cart.lines, i, line', p);
      }
    case None =>
      forall p ensures QuantityOf(cart.lines + [line'], p) ==
                       if p == pid then QuantityOf(cart.lines, p) + quantity else QuantityOf(cart.lines, p)
      {
        QuantityOfAppend(cart.lines, line', p);
      }
  }

  /**
   * Adding to a cart that agrees with the catalog raises its total by the
   * product's price times the requested quantity, adds one to the line count
   * for a new line only, and leaves it agreeing with the catalog.
   */
  lemma AddedCartAgrees(cart: Cart, catalog: map<ProductId, Product>, pid: ProductId, quantity: nat)
    requires CartAgrees(cart, catalog) && pid in catalog
    ensures var after := AddedCart(cart, pid, quantity, catalog[pid].price);
            && after.totalValue == cart.totalValue + catalog[pid].price * quantity
            && after.quantity == cart.quantity + (if FindLine(cart.lines, pid).Some? then 0 else 1)
            && CartAgrees(after, catalog)
  {
    var price := catalog[pid].price;
    match FindLine(cart.lines, pid)
    case Some(i) =>
      IncrementLineAgrees(cart.lines, catalog, i, quantity);
    case None =>
      AppendLineAgrees(cart.lines, catalog, pid, quantity);
  }

  /** Incrementing line `i` at the catalog price keeps the lines agreeing and moves their sum by the added value. */
  lemma IncrementLineAgrees(lines: seq<CartItem>, catalog: map<ProductId, Product>, i: nat, quantity: nat)
    requires i < |lines| && Distinct(lines)
    requires forall k :: 0 <= k < |lines| ==> LineAgrees(lines[k], catalog)
    ensures lines[i].product in catalog
    ensures var price := catalog[lines[i].product].price;
            var lines' := lines[i := SavedCartItem(lines[i].(quantity := lines[i].quantity + quantity), price)];
            && Distinct(lines')
            && (forall k :: 0 <= k < |lines'| ==> LineAgrees(lines'[k], catalog))
            && SumPrices(lines') == SumPrices(lines) + price * quantity
  {
    var old_ := lines[i];
    assert LineAgrees(old_, catalog);
    var price := catalog[old_.product].price;
    var line' := SavedCartItem(old_.(quantity := old_.quantity + quantity), price);
    assert line'.price == old_.price + price * quantity by {
      assert price * (old_.quantity + quantity) == price * old_.quantity + price * quantity;
    }
    SumPricesUpdate(lines, i, line');
  }

  /** Appending a line for a product not yet in the lines keeps them distinct and agreeing. */
  lemma AppendLineAgrees(lines: seq<CartItem>, catalog: map<ProductId, Product>, pid: ProductId, quantity: nat)
    requires Distinct(lines) && pid in catalog
    requires forall k :: 0 <= k < |lines| ==> LineAgrees(lines[k], catalog)
    requires forall k :: 0 <= k < |lines| ==> lines[k].product != pid
    ensures var price := catalog[pid].price;
            var lines' := lines + [SavedCartItem(CartItem(pid, quantity, 0), price)];
            && Distinct(lines')
            && (forall k :: 0 <= k < |lines'| ==> LineAgrees(lines'[k], catalog))
            && SumPrices(lines') == SumPrices(lines) + price * quantity
  {
    var line' := SavedCartItem(CartItem(pid, quantity, 0), catalog[pid].price);
    SumPricesAppend(lines, line');
    var lines' := lines + [line'];
    forall a, b | 0 <= a < b < |lines'| ensures lines'[a].product != lines'[b].product {
      assert lines'[a] == lines[a];
      if b < |lines| {
        assert lines'[b] == lines[b];
      }
    }
    forall k | 0 <= k < |lines'| ensures LineAgrees(lines'[k], catalog) {
      if k < |lines| {
        assert lines'[k] == lines[k];
      }
    }
  }

  /**
   * A successful `add_to_cart` raises the cart's quantity of the product by
   * exactly the requested amount, reports the line's new quantity, records the
   * product in `cart.products`, and leaves every other product's quantity alone.
   */
  lemma AddToCartLine(db: Db, uid: UserId, clothesId: Option<nat>, quantity: nat)
    requires AddToCart(db, uid, clothesId, quantity).result.Ok?
    ensures var s := AddToCart(db, uid, clothesId, quantity);
            var pid := clothesId.value;
            var before := GetOrCreateCart(db.carts, uid)[uid];
            var after := s.db.carts[uid];
            && QuantityOf(after.lines, pid) == QuantityOf(before.lines, pid) + quantity
            && (forall p :: p != pid ==> QuantityOf(after.lines, p) == QuantityOf(before.lines, p))
            && s.result.value.quantity ==
                 (match FindLine(before.lines, pid)
                  case Some(i) => before.lines[i].quantity + quantity
                  case None => quantity)
            && after.products == before.products + {pid}
  {
    AddedCartLine(GetOrCreateCart(db.carts, uid)[uid], clothesId.value, quantity, db.catalog[clothesId.value].price);
  }

  /**
   * On a consistent store a successful `add_to_cart` raises the cart's total by
   * the product's price times the requested quantity, adds one to the line count
   * for a new line only, and leaves the store consistent.
   */
  lemma AddToCartTotals(db: Db, uid: UserId, clothesId: Option<nat>, quantity: nat)
    requires Consistent(db)
    requires AddToCart(db, uid, clothesId, quantity).result.Ok?
    ensures var s := AddToCart(db, uid, clothesId, quantity);
            var pid := clothesId.value;
            var before := GetOrCreateCart(db.carts, uid)[uid];
            var after := s.db.carts[uid];
            && after.totalValue == before.totalValue + db.catalog[pid].price * quantity
            && after.quantity == before.quantity + (if FindLine(before.lines, pid).Some? then 0 else 1)
            && Consistent(s.db)
  {
    var pid := clothesId.value;
    var db0 := db.(carts := GetOrCreateCart(db.carts, uid));
    assert Consistent(db0) by {
      if uid !in db.carts {
        ReplaceCartConsistent(db, uid, NewCart());
      }
    }
    AddedCartAgrees(db0.carts[uid], db.catalog, pid, quantity);
    ReplaceCartConsistent(db0, uid, AddedCart(db0.carts[uid], pid, quantity, db.catalog[pid].price));
  }

  /**
   * `add_to_cart` keeps the store consistent whatever its outcome: on a failure
   * the only change is the empty cart `get_or_create` may have made.
   */
  lemma AddToCartConsistent(db: Db, uid: UserId, clothesId: Option<nat>, quantity: nat)
    requires Consistent(db)
    ensures Consistent(AddToCart(db, uid, clothesId, quantity).db)
  {
    if AddToCart(db, uid, clothesId, quantity).result.Ok? {
      AddToCartTotals(db, uid, clothesId, quantity);
    } else if uid !in db.carts {
      ReplaceCartConsistent(db, uid, NewCart());
    }
  }

  /**
   * `remove_from_cart` succeeds exactly when the user has a cart, the id is
   * given, the product exists and the cart has a line for it; on any failure
   * nothing changes. Only the user's cart ever changes.
   */
  lemma RemoveFromCartOutcome(db: Db, uid: UserId, clothesId: Option<nat>)
    ensures var s := RemoveFromCart(db, uid, clothesId);
            && (s.result.Ok? <==>
                 uid in db.carts && Truthy(clothesId) && clothesId.value in db.catalog &&
                 FindLine(db.carts[uid].lines, clothesId.value).Some?)
            && (uid !in db.carts ==> s.result == Err(CartNotFound))
            && (uid in db.carts && !Truthy(clothesId) ==> s.result == Err(MissingProductId))
            && (uid in db.carts && Truthy(clothesId) && clothesId.value !in db.catalog ==> s.result == Err(ProductNotFound))
            && ((uid in db.carts && Truthy(clothesId) && clothesId.value in db.catalog &&
                 FindLine(db.carts[uid].lines, clothesId.value).None?) ==> s.result == Err(LineNotFound))
            && (s.result.Err? ==> s.db == db)
            && s.db.catalog == db.catalog && s.db.orders == db.orders
            && s.db.users == db.users && s.db.payments == db.payments
            && s.db.carts.Keys == db.carts.Keys
            && (forall u :: u in db.carts && u != uid ==> s.db.carts[u] == db.carts[u])
  {
  }

  /**
   * On a consistent store a successful `remove_from_cart` deletes the product's
   * whole line: its quantity drops to 0, it leaves `cart.products`, the total
   * falls by the line's value, the line count by one (so both reach 0 when it
   * was the only line), every other product keeps its quantity, and the store
   * stays consistent.
   */
  lemma RemoveFromCartTotals(db: Db, uid: UserId, clothesId: Option<nat>)
    requires Consistent(db)
    requires RemoveFromCart(db, uid, clothesId).result.Ok?
    ensures var s := RemoveFromCart(db, uid, clothesId);
            var pid := clothesId.value;
            var before := db.carts[uid];
            var after := s.db.carts[uid];
            && QuantityOf(after.lines, pid) == 0
            && pid !in after.products
            && (forall p :: p != pid ==> QuantityOf(after.lines, p) == QuantityOf(before.lines, p))
            && after.totalValue + db.catalog[pid].price * QuantityOf(before.lines, pid) == before.totalValue
            && after.quantity + 1 == before.quantity
            && (|before.lines| == 1 ==> after.totalValue == 0 && after.quantity == 0)
            && Consistent(s.db)
  {
    var s := RemoveFromCart(db, uid, clothesId);
    var pid := clothesId.value;
    var before := db.carts[uid];
    var i := FindLine(before.lines, pid).value;
    var lines' := RemoveAt(before.lines, i);
    assert CartAgrees(before, db.catalog);
    assert LineAgrees(before.lines[i], db.catalog);
    QuantityOfDistinct(before.lines, i);
    SumPricesRemove(before.lines, i);
    forall p ensures QuantityOf(lines', p) + (if p == pid then before.lines[i].quantity else 0) == QuantityOf(before.lines, p) {
      QuantityOfRemove(before.lines, i, p);
    }
    RemoveLineAgrees(before, db.catalog, i, before.products - {pid});
    ReplaceCartConsistent(db, uid, s.db.carts[uid]);
  }

  /** Deleting a line of a cart that agrees with the catalog, and saving it, leaves a cart that agrees. */
  lemma RemoveLineAgrees(c: Cart, catalog: map<ProductId, Product>, i: nat, products: set<ProductId>)
    requires CartAgrees(c, catalog) && i < |c.lines|
    ensures CartAgrees(SavedCart(c.(lines := RemoveAt(c.lines, i), products := products)), catalog)
  {
    var lines' := RemoveAt(c.lines, i);
    assert forall k :: 0 <= k < |lines'| ==> lines'[k] == (if k < i then c.lines[k] else c.lines[k + 1]);
  }

  /**
   * `change_product_quantity` succeeds exactly when the user has a cart, both
   * the id and a non-zero quantity are given, the product exists and the cart
   * has a line for it: there is no stock check. On any failure nothing changes.
   */
  lemma ChangeQuantityOutcome(db: Db, uid: UserId, clothesId: Option<nat>, newQuantity: Option<nat>)
    ensures var s := ChangeProductQuantity(db, uid, clothesId, newQuantity);
            && (s.result.Ok? <==>
                 uid in db.carts && Truthy(clothesId) && Truthy(newQuantity) && clothesId.value in db.catalog &&
                 FindLine(db.carts[uid].lines, clothesId.value).Some?)
            && (uid !in db.carts ==> s.result == Err(CartNotFound))
            && (uid in db.carts && (!Truthy(clothesId) || !Truthy(newQuantity)) ==> s.result == Err(MissingIdOrQuantity))
            && (uid in db.carts && Truthy(clothesId) && Truthy(newQuantity) && clothesId.value !in db.catalog ==>
                  s.result == Err(ProductNotFound))
            && ((uid in db.carts && Truthy(clothesId) && Truthy(newQuantity) && clothesId.value in db.catalog &&
                 FindLine(db.carts[uid].lines, clothesId.value).None?) ==> s.result == Err(LineNotFound))
            && (s.result.Err? ==> s.db == db)
            && s.db.catalog == db.catalog && s.db.orders == db.orders
            && s.db.users == db.users && s.db.payments == db.payments
            && s.db.carts.Keys == db.carts.Keys
            && (forall u :: u in db.carts && u != uid ==> s.db.carts[u] == db.carts[u])
  {
  }

  /**
   * On a consistent store a successful `change_product_quantity` overwrites the
   * product's quantity with the new one (absolutely, not by a delta), moves the
   * total by the difference of the line's old and new values, keeps the line
   * count and every other product's quantity, and keeps the store consistent.
   */
  lemma ChangeQuantityTotals(db: Db, uid: UserId, clothesId: Option<nat>, newQuantity: Option<nat>)
    requires Consistent(db)
    requires ChangeProductQuantity(db, uid, clothesId, newQuantity).result.Ok?
    ensures var s := ChangeProductQuantity(db, uid, clothesId, newQuantity);
            var pid := clothesId.value;
            var q := newQuantity.value;
            var price := db.catalog[pid].price;
            var before := db.carts[uid];
            var after := s.db.carts[uid];
            && QuantityOf(after.lines, pid) == q
            && s.result.value == Changed(|before.lines|, db.catalog[pid].name, q)
            && (forall p :: p != pid ==> QuantityOf(after.lines, p) == QuantityOf(before.lines, p))
            && after.totalValue + price * QuantityOf(before.lines, pid) == before.totalValue + price * q
            && after.quantity == before.quantity
            && Consistent(s.db)
  {
    var s := ChangeProductQuantity(db, uid, clothesId, newQuantity);
    var pid := clothesId.value;
    var q := newQuantity.value;
    var price := db.catalog[pid].price;
    var before := db.carts[uid];
    var i := FindLine(before.lines, pid).value;
    var line' := SavedCartItem(before.lines[i].(quantity := q), price);
    var lines' := before.lines[i := line'];
    assert CartAgrees(before, db.catalog);
    assert LineAgrees(before.lines[i], db.catalog);
    QuantityOfDistinct(before.lines, i);
    SumPricesUpdate(before.lines, i, line');
    forall p ensures QuantityOf(lines', p) ==
                     if p == pid then QuantityOf(before.lines, p) - before.lines[i].quantity + q else QuantityOf(before.lines, p)
    {
      QuantityOfUpdate(before.lines, i, line', p);
    }
    assert CartAgrees(s.db.carts[uid], db.catalog);
    ReplaceCartConsistent(db, uid, s.db.carts[uid]);
  }
}
