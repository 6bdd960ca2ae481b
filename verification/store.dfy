/**
 * The store as the handlers of clothes/views.py see it: one object whose
 * tables the handlers and the `save()` hooks of clothes/models.py update in
 * place, row by row. Each handler is proved to leave the tables, and to
 * answer, exactly as the function of the same name in `Carts`, `Orders` or
 * `Accounts` says; the properties of those functions are proved there.
 */
module Views {
  import opened Shop
  import Tracking
  import Carts
  import Orders
  import Accounts

  /** The cart of a `create_order` from the cart after the second loop's first `j` passes. */
  function CleanedCart(cart: Cart, placed: seq<Orders.Placed>, j: nat): Cart
    requires j <= |placed|
  {
    if j == 0 then cart else SavedCart(cart.(lines := Orders.Cleaned(cart.lines, placed[..j])))
  }

  /** Order `order` after the second loop's first `j` passes over `placed`. */
  function PlacedOrder(order: Order, placed: seq<Orders.Placed>, j: nat): Order
    requires j <= |placed|
  {
    order.(lines := Orders.OrderLines(placed[..j]), products := Orders.ProductSet(placed[..j]))
  }

  lemma PlacedOrderStart(order: Order, placed: seq<Orders.Placed>)
    requires order.lines == [] && order.products == {}
    ensures PlacedOrder(order, placed, 0) == order
  {
    assert placed[..0] == [];
    assert Orders.OrderLines([]) == [] && Orders.ProductSet([]) == {};
  }

  lemma PlacedOrderNext(order: Order, placed: seq<Orders.Placed>, j: nat)
    requires j < |placed|
    ensures var o := PlacedOrder(order, placed, j);
            o.(lines := o.lines + [Orders.LineOf(placed[j])], products := o.products + {placed[j].product})
              == PlacedOrder(order, placed, j + 1)
  {
    Orders.ProductSetSnoc(placed, j);
  }

  lemma CleanedCartNext(cart: Cart, placed: seq<Orders.Placed>, j: nat)
    requires j < |placed|
    ensures var c := CleanedCart(cart, placed, j);
            SavedCart(c.(lines := Without(c.lines, placed[j].product))) == CleanedCart(cart, placed, j + 1)
  {
    Orders.ProductSetSnoc(placed, j);
    assert placed[..0] == [];
    assert Orders.Cleaned(cart.lines, placed[..0]) == cart.lines;
  }

  class Store {
    var users: map<UserId, Account>
    var catalog: map<ProductId, Product>
    var payments: set<PaymentId>
    var carts: map<UserId, Cart>
    var orders: seq<Order>

    /** The tables as a value. */
    function Snapshot(): Db
      reads this
    {
      Db(users, catalog, payments, carts, orders)
    }

    constructor(db: Db)
      ensures Snapshot() == db
    {
      users := db.users;
      catalog := db.catalog;
      payments := db.payments;
      carts := db.carts;
      orders := db.orders;
    }

    // ------------------------------------------------------------ save hooks

    /** `Clothes.save` on the in-memory row `p` of product `pid` (models.py:122-135). */
    method SaveClothes(pid: ProductId, p: Product) returns (saved: Product)
      modifies this
      ensures saved == SavedClothes(p, pid, orders)
      ensures catalog == old(catalog)[pid := saved]
      ensures users == old(users) && payments == old(payments) && carts == old(carts) && orders == old(orders)
    {
      saved := p.(status := if p.stock == 0 then OutOfStock else InStock);
      catalog := catalog[pid := saved];
      var ratings := RatingsOf(orders, pid);
      var mean := if |ratings| > 0 then Some((SumNat(ratings) as real) / (|ratings| as real)) else None;
      saved := saved.(rating := mean);
      catalog := catalog[pid := saved];
    }

    /** `CartItem.save` on the in-memory `line`, written as line `i` of the cart of `uid` (models.py:175-177). */
    method SaveCartItem(uid: UserId, i: nat, line: CartItem) returns (saved: CartItem)
      requires uid in carts && i <= |carts[uid].lines| && line.product in catalog
      modifies this
      ensures saved == SavedCartItem(line, old(catalog)[line.product].price)
      ensures carts == old(carts)[uid := old(carts)[uid].(lines := Put(old(carts)[uid].lines, i, saved))]
      ensures users == old(users) && catalog == old(catalog) && payments == old(payments) && orders == old(orders)
    {
      saved := line.(price := catalog[line.product].price * line.quantity);
      var cart := carts[uid];
      carts := carts[uid := cart.(lines := Put(cart.lines, i, saved))];
    }

    /**
     * `Cart.save` on the in-memory cart of `uid`, whose aggregates are
     * `quantity` and `totalValue` (models.py:157-162): they are written, then
     * overwritten by the count and the price sum of the cart's lines.
     */
    method SaveCart(uid: UserId, quantity: nat, totalValue: nat) returns (saved: Cart)
      requires uid in carts
      modifies this
      ensures saved == SavedCart(old(carts)[uid])
      ensures carts == old(carts)[uid := saved]
      ensures users == old(users) && catalog == old(catalog) && payments == old(payments) && orders == old(orders)
    {
      carts := carts[uid := carts[uid].(quantity := quantity, totalValue := totalValue)];
      var items := carts[uid].lines;
      saved := carts[uid].(quantity := |items|, totalValue := SumPrices(items));
      carts := carts[uid := saved];
    }

    /** `Order.save` on the in-memory order `o`, written as order `k` (models.py:225-231). */
    method SaveOrder(k: nat, o: Order, draws: seq<Tracking.Digit>) returns (saved: Order)
      requires k <= |orders| && o.owner in users && |draws| == Tracking.TrackingLength
      modifies this
      ensures saved == SavedOrder(o, old(users)[o.owner].username, draws)
      ensures orders == Put(old(orders), k, saved)
      ensures users == old(users) && catalog == old(catalog) && payments == old(payments) && carts == old(carts)
    {
      saved := o;
      if saved.recipient == "" {
        saved := saved.(recipient := users[o.owner].username);
      }
      if saved.tracking == "" {
        saved := saved.(tracking := Tracking.GenerateTrackingNumber(draws));
      }
      orders := Put(orders, k, saved);
    }

    /**
     * `OrderItem.save` on the in-memory `item`, written as line `j` of order
     * `k`, when its product's price is `productPrice` (models.py:287-293): the
     * total is recomputed, and on a completed order the product is re-saved.
     */
    method SaveOrderItem(k: nat, j: nat, item: OrderItem, productPrice: nat) returns (saved: OrderItem)
      requires k < |orders| && j <= |orders[k].lines|
      requires orders[k].status == Completed ==> item.product in catalog
      modifies this
      ensures saved == SavedOrderItem(item, productPrice)
      ensures orders == old(orders)[k := old(orders)[k].(lines := Put(old(orders)[k].lines, j, saved))]
      ensures catalog == if old(orders)[k].status == Completed
                         then old(catalog)[item.product := SavedClothes(old(catalog)[item.product], item.product, orders)]
                         else old(catalog)
      ensures users == old(users) && payments == old(payments) && carts == old(carts)
    {
      saved := item.(totalValue := productPrice * item.quantity);
      var order := orders[k];
      orders := orders[k := order.(lines := Put(order.lines, j, saved))];
      if order.status == Completed {
        var product := catalog[item.product];
        var _ := SaveClothes(item.product, product);
      }
    }

    /** `UserAccount.save` on the in-memory account `a` of `uid` (models.py:65-74). */
    method SaveUser(uid: UserId, a: Account)
      modifies this
      ensures Snapshot() == Accounts.SavedUser(old(Snapshot()), uid, a)
    {
      var saved := a.(isStaff := a.role == AdminRole);
      users := users[uid := saved];
      if !saved.isStaff && uid !in carts {
        carts := carts[uid := Cart([], {}, 1, 0)];
        var _ := SaveCart(uid, 1, 0);
      }
    }

    /** `UserAccountManager.create_user` for the new id `uid` (models.py:11-22). */
    method CreateUser(uid: UserId, username: string, email: string, role: string) returns (r: Result<UserId>)
      requires uid !in users
      modifies this
      ensures Snapshot() == Accounts.CreateUser(old(Snapshot()), uid, username, email, role).db
      ensures r == Accounts.CreateUser(old(Snapshot()), uid, username, email, role).result
    {
      if email == "" {
        return Err(EmptyEmail);
      }
      var a := Account(username, email, role, false);
      if role == UserRole {
        a := a.(isStaff := false);
      } else {
        a := a.(isStaff := true);
      }
      SaveUser(uid, a);
      return Ok(uid);
    }

    // ----------------------------------------------------------- cart views

    /** `add_to_cart` (views.py:244-291). */
    method AddToCart(uid: UserId, clothesId: Option<nat>, quantity: nat) returns (r: Result<Carts.Added>)
      modifies this
      ensures Snapshot() == Carts.AddToCart(old(Snapshot()), uid, clothesId, quantity).db
      ensures r == Carts.AddToCart(old(Snapshot()), uid, clothesId, quantity).result
    {
      if uid !in carts {
        carts := carts[uid := Cart([], {}, 1, 0)];
        var _ := SaveCart(uid, 1, 0);
      }
      var cart := carts[uid];
      if !Truthy(clothesId) {
        return Err(MissingProductId);
      }
      if clothesId.value !in catalog {
        return Err(ProductNotFound);
      }
      var pid := clothesId.value;
      var product := catalog[pid];
      if product.stock < quantity {
        return Err(InsufficientStock);
      }
      ghost var target := Carts.AddedCart(cart, pid, quantity, product.price);
      var item := WriteLine(uid, pid, quantity);
      var _ := SaveCart(uid, cart.quantity, cart.totalValue);
      if pid !in carts[uid].products {
        carts := carts[uid := carts[uid].(products := carts[uid].products + {pid})];
      }
      assert carts[uid].products == target.products;
      var total := ValueAt(carts[uid].lines, catalog);
      var count := |carts[uid].lines|;
      var _ := SaveCart(uid, count, total);
      return Ok(Carts.Added(product.name, item.quantity));
    }

    /**
     * The cart-line part of `add_to_cart` (views.py:261-267): the line of
     * `pid` in the cart of `uid` is fetched or created with quantity 1 and
     * saved, then its quantity is incremented or set and it is saved again.
     */
    method WriteLine(uid: UserId, pid: ProductId, quantity: nat) returns (item: CartItem)
      requires uid in carts && pid in catalog
      modifies this
      ensures item.quantity == Carts.AddedQuantity(old(carts)[uid].lines, pid, quantity)
      ensures carts == old(carts)[uid := old(carts)[uid].(lines := Carts.AddedCart(old(carts)[uid], pid, quantity, old(catalog)[pid].price).lines)]
      ensures users == old(users) && catalog == old(catalog) && payments == old(payments) && orders == old(orders)
    {
      var lines := carts[uid].lines;
      var found := FindLine(lines, pid);
      var i: nat;
      if found.Some? {
        i := found.value;
        item := lines[i];
        item := item.(quantity := item.quantity + quantity);
      } else {
        i := |lines|;
        item := SaveCartItem(uid, i, CartItem(pid, 1, 0));
        item := item.(quantity := quantity);
      }
      item := SaveCartItem(uid, i, item);
      assert carts[uid].lines == Put(lines, i, item);
    }

    /** `remove_from_cart` (views.py:295-331). */
    method RemoveFromCart(uid: UserId, clothesId: Option<nat>) returns (r: Result<string>)
      modifies this
      ensures Snapshot() == Carts.RemoveFromCart(old(Snapshot()), uid, clothesId).db
      ensures r == Carts.RemoveFromCart(old(Snapshot()), uid, clothesId).result
    {
      if uid !in carts {
        return Err(CartNotFound);
      }
      var cart := carts[uid];
      if !Truthy(clothesId) {
        return Err(MissingProductId);
      }
      if clothesId.value !in catalog {
        return Err(ProductNotFound);
      }
      var pid := clothesId.value;
      var product := catalog[pid];
      var found := FindLine(cart.lines, pid);
      if found.None? {
        return Err(LineNotFound);
      }
      carts := carts[uid := cart.(lines := RemoveAt(cart.lines, found.value))];
      if pid in carts[uid].products {
        carts := carts[uid := carts[uid].(products := carts[uid].products - {pid})];
      }
      assert carts[uid] == cart.(lines := RemoveAt(cart.lines, found.value), products := cart.products - {pid});
      var total := ValueAt(carts[uid].lines, catalog);
      var count := |carts[uid].lines|;
      var _ := SaveCart(uid, count, total);
      return Ok(product.name);
    }

    /** `change_product_quantity` (views.py:336-376). */
    method ChangeProductQuantity(uid: UserId, clothesId: Option<nat>, newQuantity: Option<nat>) returns (r: Result<Carts.Changed>)
      modifies this
      ensures Snapshot() == Carts.ChangeProductQuantity(old(Snapshot()), uid, clothesId, newQuantity).db
      ensures r == Carts.ChangeProductQuantity(old(Snapshot()), uid, clothesId, newQuantity).result
    {
      if uid !in carts {
        return Err(CartNotFound);
      }
      var cart := carts[uid];
      if !Truthy(clothesId) || !Truthy(newQuantity) {
        return Err(MissingIdOrQuantity);
      }
      if clothesId.value !in catalog {
        return Err(ProductNotFound);
      }
      var pid := clothesId.value;
      var product := catalog[pid];
      var found := FindLine(cart.lines, pid);
      if found.None? {
        return Err(LineNotFound);
      }
      var item := cart.lines[found.value];
      item := item.(quantity := newQuantity.value);
      item := SaveCartItem(uid, found.value, item);
      var _ := SaveCart(uid, cart.quantity, cart.totalValue);
      var count := |carts[uid].lines|;
      return Ok(Carts.Changed(count, product.name, item.quantity));
    }

    // ---------------------------------------------------------- order views

    /**
     * The first loop of `create_order` (views.py:424-456) over `items`, with
     * `cartLines` the lines of the caller's cart: each item is checked and its
     * stock decrement saved at once, and the loop stops at the first failure,
     * leaving the decrements of earlier items in place.
     */
    method ReserveItems(items: seq<Orders.LineRequest>, fromCart: bool, cartLines: seq<CartItem>)
      returns (placed: seq<Orders.Placed>, total: nat, failure: Option<Error>)
      modifies this
      ensures Orders.Reserve(old(catalog), items, fromCart, cartLines, orders) ==
              Orders.Reservation(catalog, placed, total, failure)
      ensures users == old(users) && payments == old(payments) && carts == old(carts) && orders == old(orders)
    {
      total := 0;
      placed := [];
      failure := None;
      ghost var catalog0 := catalog;
      var i := 0;
      while i < |items| && failure.None?
        invariant 0 <= i <= |items|
        invariant Orders.Reserve(catalog0, items[..i], fromCart, cartLines, orders) ==
                  Orders.Reservation(catalog, placed, total, failure)
        invariant users == old(users) && payments == old(payments) && carts == old(carts) && orders == old(orders)
      {
        Orders.ReserveNext(catalog0, items, i, fromCart, cartLines, orders);
        placed, total, failure := ReserveOne(items[i], fromCart, cartLines, placed, total);
        i := i + 1;
      }
      if failure.Some? {
        Orders.ReserveStops(catalog0, items, i, fromCart, cartLines, orders);
      } else {
        assert items[..i] == items;
      }
    }

    /**
     * One pass of the first loop of `create_order` (views.py:425-456) for the
     * requested `item`, after the passes that placed `placed` worth `total`.
     */
    method ReserveOne(item: Orders.LineRequest, fromCart: bool, cartLines: seq<CartItem>,
                      placed: seq<Orders.Placed>, total: nat)
      returns (placed': seq<Orders.Placed>, total': nat, failure: Option<Error>)
      modifies this
      ensures Orders.ReserveItem(Orders.Reservation(old(catalog), placed, total, None), item, fromCart, cartLines, orders) ==
              Orders.Reservation(catalog, placed', total', failure)
      ensures users == old(users) && payments == old(payments) && carts == old(carts) && orders == old(orders)
    {
      placed', total', failure := placed, total, None;
      if !Truthy(item.id) {
        failure := Some(MissingItemId);
        return;
      }
      var pid := item.id.value;
      var quantity := Orders.RequestedQuantity(item);
      if pid !in catalog {
        failure := Some(ProductNotFound);
        return;
      }
      var product := catalog[pid];
      if product.stock < quantity {
        failure := Some(InsufficientStock);
        return;
      }
      if fromCart && FindLine(cartLines, pid).None? {
        failure := Some(NotInCart);
        return;
      }
      product := product.(stock := product.stock - quantity);
      product := SaveClothes(pid, product);
      total' := total + product.price * quantity;
      placed' := placed + [Orders.Placed(pid, product.price, quantity)];
    }

    /**
     * The second loop of `create_order` (views.py:472-484): each placed item
     * becomes a saved line of order `oid` and joins its products; when the
     * order comes from the cart of `uid`, the item's cart line is deleted and
     * the cart saved.
     */
    method PlaceLines(oid: OrderId, uid: UserId, placed: seq<Orders.Placed>, fromCart: bool)
      requires oid < |orders| && orders[oid].status == Pending
      requires orders[oid].lines == [] && orders[oid].products == {}
      requires fromCart ==> uid in carts
      modifies this
      ensures orders == old(orders)[oid := old(orders)[oid].(lines := Orders.OrderLines(placed),
                                                             products := Orders.ProductSet(placed))]
      ensures carts == if fromCart && placed != []
                       then old(carts)[uid := SavedCart(old(carts)[uid].(lines := Orders.Cleaned(old(carts)[uid].lines, placed)))]
                       else old(carts)
      ensures users == old(users) && catalog == old(catalog) && payments == old(payments)
    {
      ghost var order := orders[oid];
      ghost var cart := if fromCart then carts[uid] else NewCart();
      PlacedOrderStart(order, placed);
      var j := 0;
      while j < |placed|
        invariant 0 <= j <= |placed|
        invariant orders == old(orders)[oid := PlacedOrder(order, placed, j)]
        invariant users == old(users) && catalog == old(catalog) && payments == old(payments)
        invariant fromCart ==> carts == old(carts)[uid := CleanedCart(cart, placed, j)]
        invariant !fromCart ==> carts == old(carts)
      {
        PlacedOrderNext(order, placed, j);
        CleanedCartNext(cart, placed, j);
        PlaceLine(oid, uid, placed[j], fromCart);
        j := j + 1;
      }
      assert placed[..j] == placed;
    }

    /**
     * One pass of the second loop of `create_order` (views.py:473-484) for the
     * placed item `pl`. The in-memory cart always holds what was last saved,
     * so its aggregates are read back from the table.
     */
    method PlaceLine(oid: OrderId, uid: UserId, pl: Orders.Placed, fromCart: bool)
      requires oid < |orders| && orders[oid].status == Pending
      requires fromCart ==> uid in carts
      modifies this
      ensures orders == old(orders)[oid := old(orders)[oid].(lines := old(orders)[oid].lines + [Orders.LineOf(pl)],
                                                             products := old(orders)[oid].products + {pl.product})]
      ensures carts == if fromCart
                       then old(carts)[uid := SavedCart(old(carts)[uid].(lines := Without(old(carts)[uid].lines, pl.product)))]
                       else old(carts)
      ensures users == old(users) && catalog == old(catalog) && payments == old(payments)
    {
      var j := |orders[oid].lines|;
      var _ := SaveOrderItem(oid, j, OrderItem(pl.product, pl.quantity, pl.price * pl.quantity, None), pl.price);
      if pl.product !in orders[oid].products {
        orders := orders[oid := orders[oid].(products := orders[oid].products + {pl.product})];
      }
      if fromCart {
        carts := carts[uid := carts[uid].(lines := Without(carts[uid].lines, pl.product))];
        var _ := SaveCart(uid, carts[uid].quantity, carts[uid].totalValue);
      }
      assert orders[oid].products == old(orders)[oid].products + {pl.product};
    }

    /** `create_order` (views.py:395-489). */
    method CreateOrder(uid: UserId, source: string, payment: Option<nat>, items: seq<Orders.LineRequest>,
                       info: Orders.Recipient, draws: seq<Tracking.Digit>) returns (r: Result<OrderId>)
      requires uid in users && |draws| == Tracking.TrackingLength
      modifies this
      ensures Snapshot() == Orders.CreateOrder(old(Snapshot()), uid, source, payment, items, info, draws).db
      ensures r == Orders.CreateOrder(old(Snapshot()), uid, source, payment, items, info, draws).result
    {
      if uid !in carts {
        return Err(CartNotFound);
      }
      if !Orders.ValidSource(source) {
        return Err(InvalidSource);
      }
      if payment.None? || payment.value !in payments {
        return Err(InvalidPaymentMethod);
      }
      if items == [] {
        return Err(EmptyProductList);
      }
      if source == "detail" && |items| > 1 {
        return Err(TooManyItems);
      }
      var fromCart := source == "cart";
      var placed, total, failure := ReserveItems(items, fromCart, carts[uid].lines);
      if failure.Some? {
        return Err(failure.value);
      }
      ghost var reservation := Orders.Reservation(catalog, placed, total, None);
      var order := Order(uid, "", Pending, info.name, info.phone, info.address, total, {}, payment.value, []);
      var oid := |orders|;
      order := SaveOrder(oid, order, draws);
      PlaceLines(oid, uid, placed, fromCart);
      assert orders[oid] == Orders.NewOrder(uid, info, payment.value, reservation, users[uid].username, draws);
      return Ok(oid);
    }

    /** `cancel_order` (views.py:494-507). */
    method CancelOrder(uid: UserId, pk: nat, draws: seq<Tracking.Digit>) returns (r: Result<()>)
      requires uid in users && |draws| == Tracking.TrackingLength
      modifies this
      ensures Snapshot() == Orders.CancelOrder(old(Snapshot()), uid, pk, draws).db
      ensures r == Orders.CancelOrder(old(Snapshot()), uid, pk, draws).result
    {
      if pk >= |orders| {
        return Err(OrderNotFound);
      }
      var order := orders[pk];
      if order.owner != uid {
        return Err(Forbidden);
      }
      if order.status != Pending {
        return Err(NotCancellable);
      }
      order := order.(status := Cancelled);
      var _ := SaveOrder(pk, order, draws);
      return Ok(());
    }

    /** `rate_product` (views.py:512-547). */
    method RateProduct(uid: UserId, pk: nat, productId: Option<nat>, rating: int) returns (r: Result<Orders.Rated>)
      requires uid in users
      modifies this
      ensures Snapshot() == Orders.RateProduct(old(Snapshot()), uid, pk, productId, rating).db
      ensures r == Orders.RateProduct(old(Snapshot()), uid, pk, productId, rating).result
    {
      if pk >= |orders| {
        return Err(OrderNotFound);
      }
      var order := orders[pk];
      if order.owner != uid {
        return Err(Forbidden);
      }
      if order.status != Completed {
        return Err(NotRateable);
      }
      if productId.None? || productId.value !in catalog {
        return Err(ProductNotFound);
      }
      var pid := productId.value;
      var product := catalog[pid];
      var user := users[uid];
      if rating < 1 || rating > 5 {
        return Err(RatingOutOfRange);
      }
      var found := Orders.GetOrderLine(order.lines, pid);
      if found.Err? {
        return Err(found.error);
      }
      var j := found.value;
      var item := order.lines[j];
      if item.rating.Some? {
        return Err(AlreadyRated);
      }
      item := item.(rating := Some(rating as nat));
      var _ := SaveOrderItem(pk, j, item, product.price);
      return Ok(Orders.Rated(user.username, product.name, rating as nat));
    }
  }
}
