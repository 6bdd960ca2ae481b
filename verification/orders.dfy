/**
 * The order handlers of clothes/views.py as functions from the store before the
 * request to the store after it and the handler's answer: `create_order`
 * (lines 395-489), `cancel_order` (494-507) and `rate_product` (512-547).
 *
 * `create_order` runs in one transaction, but every early `return` of its
 * first loop commits: the stock decrements written for the items before the
 * rejected one persist. The model keeps that behaviour.
 */
module Orders {
  import opened Shop
  import Tracking
  import Carts

  /** One entry of the request's `products` list; a missing `quantity` key means 1. */
  datatype LineRequest = LineRequest(id: Option<nat>, quantity: Option<nat>)

  function RequestedQuantity(item: LineRequest): nat {
    if item.quantity.Some? then item.quantity.value else 1
  }

  /** The request's `userInfo`: `hovaten`, `sdt` and `diachi` ("" when absent). */
  datatype Recipient = Recipient(name: string, phone: string, address: string)

  /** One entry of `order_items`: the product as read (its id and price) and the quantity. */
  datatype Placed = Placed(product: ProductId, price: nat, quantity: nat)

  /**
   * The state of `create_order`'s first loop: the catalog with the decrements
   * written so far, the entries collected, the running total, and the error the
   * loop returned with, if it did.
   */
  datatype Reservation = Reservation(
    catalog: map<ProductId, Product>,
    placed: seq<Placed>,
    total: nat,
    failure: Option<Error>)

  function Start(catalog: map<ProductId, Product>): Reservation {
    Reservation(catalog, [], 0, None)
  }

  /** One pass of the first loop (views.py:426-456); after a failure nothing more happens. */
  function ReserveItem(r: Reservation, item: LineRequest, fromCart: bool, cartLines: seq<CartItem>, orders: seq<Order>): Reservation {
    if r.failure.Some? then r
    else if !Truthy(item.id) then r.(failure := Some(MissingItemId))
    else if item.id.value !in r.catalog then r.(failure := Some(ProductNotFound))
    else
      var pid := item.id.value;
      var p := r.catalog[pid];
      var q := RequestedQuantity(item);
      if p.stock < q then r.(failure := Some(InsufficientStock))
      else if fromCart && FindLine(cartLines, pid).None? then r.(failure := Some(NotInCart))
      else Reservation(r.catalog[pid := SavedClothes(p.(stock := p.stock - q), pid, orders)],
                       r.placed + [Placed(pid, p.price, q)], r.total + p.price * q, None)
  }

  /** The first loop over all of `items`. */
  function Reserve(catalog: map<ProductId, Product>, items: seq<LineRequest>, fromCart: bool,
                   cartLines: seq<CartItem>, orders: seq<Order>): Reservation
    decreases |items|
  {
    if items == [] then Start(catalog)
    else ReserveItem(Reserve(catalog, items[..|items| - 1], fromCart, cartLines, orders),
                     items[|items| - 1], fromCart, cartLines, orders)
  }

  /** The quantity the request asks of `pid` over `items`. */
  function RequestDemand(items: seq<LineRequest>, pid: ProductId): nat
    decreases |items|
  {
    if items == [] then 0
    else RequestDemand(items[..|items| - 1], pid) +
         (if items[|items| - 1].id == Some(pid) then RequestedQuantity(items[|items| - 1]) else 0)
  }

  /**
   * Whether the first loop accepts `item` after the items `before` it: the id
   * is given, the product exists, what is left of its stock after the earlier
   * items covers the quantity, and, for an order from the cart, the cart has a
   * line for it.
   */
  predicate ItemAdmissible(catalog: map<ProductId, Product>, before: seq<LineRequest>, item: LineRequest,
                           fromCart: bool, cartLines: seq<CartItem>) {
    && Truthy(item.id)
    && item.id.value in catalog
    && RequestDemand(before, item.id.value) + RequestedQuantity(item) <= catalog[item.id.value].stock
    && (fromCart ==> FindLine(cartLines, item.id.value).Some?)
  }

  /**
   * The error the first loop returns for an inadmissible item, in the order
   * the loop checks: no id, an unknown product, too little stock left after
   * the items before it, no cart line for it.
   */
  function Rejection(catalog: map<ProductId, Product>, before: seq<LineRequest>, item: LineRequest,
                     fromCart: bool, cartLines: seq<CartItem>): Error {
    if !Truthy(item.id) then MissingItemId
    else if item.id.value !in catalog then ProductNotFound
    else if RequestDemand(before, item.id.value) + RequestedQuantity(item) > catalog[item.id.value].stock then InsufficientStock
    else NotInCart
  }

  predicate Admissible(catalog: map<ProductId, Product>, items: seq<LineRequest>, fromCart: bool, cartLines: seq<CartItem>) {
    forall i :: 0 <= i < |items| ==> ItemAdmissible(catalog, items[..i], items[i], fromCart, cartLines)
  }

  /** The OrderItem row written for an entry, after `OrderItem.save` recomputed its total. */
  function LineOf(pl: Placed): OrderItem {
    SavedOrderItem(OrderItem(pl.product, pl.quantity, pl.price * pl.quantity, None), pl.price)
  }

  function OrderLines(placed: seq<Placed>): (r: seq<OrderItem>)
    ensures |r| == |placed|
  {
    seq(|placed|, i requires 0 <= i < |placed| => LineOf(placed[i]))
  }

  function ProductSet(placed: seq<Placed>): set<ProductId> {
    set i | 0 <= i < |placed| :: placed[i].product
  }

  /** The cart lines left after the second loop deleted the lines of each entry's product in turn. */
  function Cleaned(lines: seq<CartItem>, placed: seq<Placed>): seq<CartItem>
    decreases |placed|
  {
    if placed == [] then lines
    else Without(Cleaned(lines, placed[..|placed| - 1]), placed[|placed| - 1].product)
  }

  /** The quantity of `pid` over order lines. */
  function LineDemand(lines: seq<OrderItem>, pid: ProductId): nat
    decreases |lines|
  {
    if lines == [] then 0
    else LineDemand(lines[..|lines| - 1], pid) +
         (if lines[|lines| - 1].product == pid then lines[|lines| - 1].quantity else 0)
  }

  /** The sum of the line totals. */
  function LinesTotal(lines: seq<OrderItem>): nat
    decreases |lines|
  {
    if lines == [] then 0 else LinesTotal(lines[..|lines| - 1]) + lines[|lines| - 1].totalValue
  }

  predicate ValidSource(source: string) {
    source == "cart" || source == "detail"
  }

  /**
   * `create_order`. The answer is the new order's id. `draws` is what the
   * tracking-number generator draws when `Order.save` runs.
   */
  function CreateOrder(db: Db, uid: UserId, source: string, payment: Option<nat>, items: seq<LineRequest>,
                       info: Recipient, draws: seq<Tracking.Digit>): Step<OrderId>
    requires uid in db.users && |draws| == Tracking.TrackingLength
  {
    if uid !in db.carts then Step(db, Err(CartNotFound))
    else if !ValidSource(source) then Step(db, Err(InvalidSource))
    else if payment.None? || payment.value !in db.payments then Step(db, Err(InvalidPaymentMethod))
    else if items == [] then Step(db, Err(EmptyProductList))
    else if source == "detail" && |items| > 1 then Step(db, Err(TooManyItems))
    else
      var fromCart := source == "cart";
      var cart := db.carts[uid];
      var r := Reserve(db.catalog, items, fromCart, cart.lines, db.orders);
      if r.failure.Some? then Step(db.(catalog := r.catalog), Err(r.failure.value))
      else
        var o := NewOrder(uid, info, payment.value, r, db.users[uid].username, draws);
        var carts := if fromCart then db.carts[uid := SavedCart(cart.(lines := Cleaned(cart.lines, r.placed)))]
                     else db.carts;
        Step(db.(catalog := r.catalog, orders := db.orders + [o], carts := carts), Ok(|db.orders|))
  }

  /** The row `Order.objects.create` writes after a first loop that ran to the end, as `Order.save` leaves it. */
  function NewOrder(uid: UserId, info: Recipient, payment: PaymentId, r: Reservation, username: string,
                    draws: seq<Tracking.Digit>): Order
    requires |draws| == Tracking.TrackingLength
  {
    SavedOrder(Order(uid, "", Pending, info.name, info.phone, info.address, r.total,
                     ProductSet(r.placed), payment, OrderLines(r.placed)),
               username, draws)
  }

  /** `cancel_order` on the order with id `pk`. */
  function CancelOrder(db: Db, uid: UserId, pk: nat, draws: seq<Tracking.Digit>): Step<()>
    requires uid in db.users && |draws| == Tracking.TrackingLength
  {
    if pk >= |db.orders| then Step(db, Err(OrderNotFound))
    else if db.orders[pk].owner != uid then Step(db, Err(Forbidden))
    else if db.orders[pk].status != Pending then Step(db, Err(NotCancellable))
    else
      var o := SavedOrder(db.orders[pk].(status := Cancelled), db.users[uid].username, draws);
      Step(db.(orders := db.orders[pk := o]), Ok(()))
  }

  /**
   * `OrderItem.objects.get(order=..., product=pid)`: the index of the one line
   * for `pid`; none is `DoesNotExist`, several are `MultipleObjectsReturned`.
   */
  function GetOrderLine(lines: seq<OrderItem>, pid: ProductId): (r: Result<nat>)
    ensures r.Ok? ==> r.value < |lines| && lines[r.value].product == pid
    ensures r.Ok? ==> forall j :: 0 <= j < |lines| && j != r.value ==> lines[j].product != pid
    ensures r == Err(NotInOrder) <==> forall j :: 0 <= j < |lines| ==> lines[j].product != pid
    ensures r.Err? ==> r.error == NotInOrder || r.error == DuplicateOrderLine
  {
    if lines == [] then Err(NotInOrder)
    else match GetOrderLine(lines[1..], pid)
      case Ok(k) => if lines[0].product == pid then Err(DuplicateOrderLine) else Ok(k + 1)
      case Err(e) => if lines[0].product == pid && e == NotInOrder then Ok(0) else Err(e)
  }

  /** `rate_product`'s answer: the rater's username, the product's name and the rating. */
  datatype Rated = Rated(username: string, productName: string, rating: nat)

  /** `rate_product` on the order with id `pk`. */
  function RateProduct(db: Db, uid: UserId, pk: nat, productId: Option<nat>, rating: int): Step<Rated>
    requires uid in db.users
  {
    if pk >= |db.orders| then Step(db, Err(OrderNotFound))
    else if db.orders[pk].owner != uid then Step(db, Err(Forbidden))
    else if db.orders[pk].status != Completed then Step(db, Err(NotRateable))
    else if productId.None? || productId.value !in db.catalog then Step(db, Err(ProductNotFound))
    else if rating < 1 || rating > 5 then Step(db, Err(RatingOutOfRange))
    else
      var o := db.orders[pk];
      var pid := productId.value;
      match GetOrderLine(o.lines, pid)
      case Err(e) => Step(db, Err(e))
      case Ok(j) =>
        if o.lines[j].rating.Some? then Step(db, Err(AlreadyRated))
        else
          var line := SavedOrderItem(o.lines[j].(rating := Some(rating as nat)), db.catalog[pid].price);
          var orders := db.orders[pk := o.(lines := o.lines[j := line])];
          var catalog := db.catalog[pid := SavedClothes(db.catalog[pid], pid, orders)];
          Step(db.(orders := orders, catalog := catalog),
               Ok(Rated(db.users[uid].username, db.catalog[pid].name, rating as nat)))
  }

  // ------------------------------------------------------- lemmas: helpers

  lemma RequestDemandSnoc(items: seq<LineRequest>, x: LineRequest, pid: ProductId)
    ensures RequestDemand(items + [x], pid) == RequestDemand(items, pid) + if x.id == Some(pid) then RequestedQuantity(x) else 0
  {
    assert (items + [x])[..|items|] == items;
  }

  lemma OrderLinesSnoc(placed: seq<Placed>, x: Placed)
    ensures OrderLines(placed + [x]) == OrderLines(placed) + [LineOf(x)]
  {
  }

  lemma LineDemandSnoc(lines: seq<OrderItem>, x: OrderItem, pid: ProductId)
    ensures LineDemand(lines + [x], pid) == LineDemand(lines, pid) + if x.product == pid then x.quantity else 0
    ensures LinesTotal(lines + [x]) == LinesTotal(lines) + x.totalValue
  {
    assert (lines + [x])[..|lines|] == lines;
  }

  /** The catalog part of the products' consistency, relative to a sequence of orders. */
  ghost predicate ProductsAgree(catalog: map<ProductId, Product>, orders: seq<Order>) {
    && (forall pid :: pid in catalog ==> catalog[pid].status == StatusOf(catalog[pid].stock))
    && (forall pid :: pid in catalog ==> catalog[pid].rating == MeanRating(RatingsOf(orders, pid)))
  }

  // ---------------------------------------------------- lemmas: first loop

  /**
   * What the first loop has written after `items`, whether or not it returned
   * early: the same products with the same names and prices; each product's
   * stock lower by exactly the quantity of the entries collected for it; a
   * running total equal to the sum of the lines those entries become; every
   * entry carrying its product's catalog price, entry `i` coming from item `i`.
   */
  ghost predicate Reserved(catalog: map<ProductId, Product>, items: seq<LineRequest>, r: Reservation) {
    && SameListing(catalog, r.catalog)
    && (forall pid :: pid in catalog ==>
          r.catalog[pid].stock + LineDemand(OrderLines(r.placed), pid) == catalog[pid].stock)
    && r.total == LinesTotal(OrderLines(r.placed))
    && |r.placed| <= |items|
    && (forall i :: 0 <= i < |r.placed| ==>
          && items[i].id == Some(r.placed[i].product)
          && r.placed[i].quantity == RequestedQuantity(items[i])
          && r.placed[i].product in catalog
          && r.placed[i].price == catalog[r.placed[i].product].price)
  }

  /** A pass that collects nothing keeps `Reserved`. */
  lemma ReservedExtend(catalog: map<ProductId, Product>, items: seq<LineRequest>, item: LineRequest, r: Reservation)
    requires Reserved(catalog, items, r)
    ensures Reserved(catalog, items + [item], r)
  {
    var items' := items + [item];
    assert forall i :: 0 <= i < |items| ==> items'[i] == items[i];
  }

  /** A pass that collects an entry keeps `Reserved`. */
  lemma ReserveItemCollects(catalog: map<ProductId, Product>, items: seq<LineRequest>, r: Reservation, item: LineRequest,
                            fromCart: bool, cartLines: seq<CartItem>, orders: seq<Order>)
    requires Reserved(catalog, items, r) && |r.placed| == |items|
    requires r.failure.None? && ReserveItem(r, item, fromCart, cartLines, orders).failure.None?
    ensures Reserved(catalog, items + [item], ReserveItem(r, item, fromCart, cartLines, orders))
  {
    var r' := ReserveItem(r, item, fromCart, cartLines, orders);
    var items' := items + [item];
    var pid := item.id.value;
    var q := RequestedQuantity(item);
    var x := Placed(pid, r.catalog[pid].price, q);
    assert r'.placed == r.placed + [x];
    assert r'.catalog == r.catalog[pid := SavedClothes(r.catalog[pid].(stock := r.catalog[pid].stock - q), pid, orders)];
    assert SameListing(catalog, r'.catalog);
    OrderLinesSnoc(r.placed, x);
    forall p | p in catalog
      ensures r'.catalog[p].stock + LineDemand(OrderLines(r'.placed), p) == catalog[p].stock
    {
      LineDemandSnoc(OrderLines(r.placed), LineOf(x), p);
    }
    assert r'.total == LinesTotal(OrderLines(r'.placed)) by {
      LineDemandSnoc(OrderLines(r.placed), LineOf(x), pid);
    }
    forall i | 0 <= i < |r'.placed|
      ensures items'[i].id == Some(r'.placed[i].product) && r'.placed[i].quantity == RequestedQuantity(items'[i])
      ensures r'.placed[i].product in catalog && r'.placed[i].price == catalog[r'.placed[i].product].price
    {
      if i < |r.placed| {
        assert r'.placed[i] == r.placed[i] && items'[i] == items[i];
      }
    }
  }

  /** One more pass of the loop keeps `Reserved`. */
  lemma ReserveItemFrame(catalog: map<ProductId, Product>, items: seq<LineRequest>, r: Reservation, item: LineRequest,
                         fromCart: bool, cartLines: seq<CartItem>, orders: seq<Order>)
    requires Reserved(catalog, items, r)
    requires r.failure.None? ==> |r.placed| == |items|
    ensures var r' := ReserveItem(r, item, fromCart, cartLines, orders);
            && Reserved(catalog, items + [item], r')
            && (r'.failure.None? ==> |r'.placed| == |items| + 1)
  {
    var r' := ReserveItem(r, item, fromCart, cartLines, orders);
    if r'.failure.None? {
      ReserveItemCollects(catalog, items, r, item, fromCart, cartLines, orders);
    } else {
      assert r'.placed == r.placed && r'.catalog == r.catalog && r'.total == r.total;
      ReservedExtend(catalog, items, item, r);
    }
  }

  lemma {:induction false} ReserveFrame(catalog: map<ProductId, Product>, items: seq<LineRequest>, fromCart: bool,
                                        cartLines: seq<CartItem>, orders: seq<Order>)
    ensures var r := Reserve(catalog, items, fromCart, cartLines, orders);
            && Reserved(catalog, items, r)
            && (r.failure.None? ==> |r.placed| == |items|)
  {
    if items != [] {
      var init := items[..|items| - 1];
      assert items == init + [items[|items| - 1]];
      ReserveFrame(catalog, init, fromCart, cartLines, orders);
      ReserveItemFrame(catalog, init, Reserve(catalog, init, fromCart, cartLines, orders), items[|items| - 1],
                       fromCart, cartLines, orders);
    }
  }

  /** The first loop re-saves each product it decrements against the same orders. */
  lemma {:induction false} ReserveKeepsProducts(catalog: map<ProductId, Product>, items: seq<LineRequest>, fromCart: bool,
                                                cartLines: seq<CartItem>, orders: seq<Order>)
    requires ProductsAgree(catalog, orders)
    ensures ProductsAgree(Reserve(catalog, items, fromCart, cartLines, orders).catalog, orders)
  {
    if items != [] {
      ReserveKeepsProducts(catalog, items[..|items| - 1], fromCart, cartLines, orders);
    }
  }

  lemma AdmissibleSnoc(catalog: map<ProductId, Product>, items: seq<LineRequest>, x: LineRequest,
                       fromCart: bool, cartLines: seq<CartItem>)
    ensures Admissible(catalog, items + [x], fromCart, cartLines) <==>
            Admissible(catalog, items, fromCart, cartLines) && ItemAdmissible(catalog, items, x, fromCart, cartLines)
  {
    var items' := items + [x];
    assert forall i :: 0 <= i < |items| ==> items'[..i] == items[..i] && items'[i] == items[i];
    assert items'[..|items|] == items;
  }

  /**
   * How the first loop ended after `items`: it ran to the end exactly when
   * every item was admissible after the ones before it, and then each
   * product's stock is lower by what the items ask of it; otherwise it
   * returned at the first inadmissible item, and the stock is lower by what
   * the items before that one ask.
   */
  ghost predicate Ended(catalog: map<ProductId, Product>, items: seq<LineRequest>, fromCart: bool,
                        cartLines: seq<CartItem>, r: Reservation) {
    && r.catalog.Keys == catalog.Keys
    && (r.failure.None? <==> Admissible(catalog, items, fromCart, cartLines))
    && (r.failure.None? ==> forall pid :: pid in catalog ==>
          r.catalog[pid].stock + RequestDemand(items, pid) == catalog[pid].stock)
    && (r.failure.Some? ==>
          var k := |r.placed|;
          && k < |items|
          && Admissible(catalog, items[..k], fromCart, cartLines)
          && !ItemAdmissible(catalog, items[..k], items[k], fromCart, cartLines)
          && r.failure == Some(Rejection(catalog, items[..k], items[k], fromCart, cartLines))
          && forall pid :: pid in catalog ==>
               r.catalog[pid].stock + RequestDemand(items[..k], pid) == catalog[pid].stock)
  }

  /** Once the loop has returned, a further item changes nothing and the loop is still stopped at the same item. */
  lemma EndedAfterFailure(catalog: map<ProductId, Product>, items: seq<LineRequest>, item: LineRequest,
                          fromCart: bool, cartLines: seq<CartItem>, r: Reservation)
    requires Ended(catalog, items, fromCart, cartLines, r) && r.failure.Some?
    ensures Ended(catalog, items + [item], fromCart, cartLines, r)
  {
    var items' := items + [item];
    var k := |r.placed|;
    assert items'[..k] == items[..k];
    assert items'[k] == items[k];
  }

  /** The pass over an item rejects it exactly when it is inadmissible after the items before it. */
  lemma EndedStep(catalog: map<ProductId, Product>, items: seq<LineRequest>, item: LineRequest,
                  fromCart: bool, cartLines: seq<CartItem>, orders: seq<Order>, r: Reservation)
    requires Ended(catalog, items, fromCart, cartLines, r) && r.failure.None?
    requires Reserved(catalog, items, r) && |r.placed| == |items|
    ensures var r' := ReserveItem(r, item, fromCart, cartLines, orders);
            && Ended(catalog, items + [item], fromCart, cartLines, r')
            && (r'.failure.None? ==> |r'.placed| == |items| + 1)
  {
    var r' := ReserveItem(r, item, fromCart, cartLines, orders);
    var items' := items + [item];
    AdmissibleSnoc(catalog, items, item, fromCart, cartLines);
    ItemVerdict(catalog, items, item, fromCart, cartLines, orders, r);
    if r'.failure.None? {
      forall pid | pid in catalog ensures r'.catalog[pid].stock + RequestDemand(items', pid) == catalog[pid].stock {
        RequestDemandSnoc(items, item, pid);
      }
    } else {
      assert r'.placed == r.placed && r'.catalog == r.catalog;
      assert items'[..|items|] == items;
    }
  }

  /**
   * One pass over an item, with the stock lowered by what the items before it
   * ask, accepts it exactly when it is admissible after them, and otherwise
   * only records the error of the first check it fails.
   */
  lemma ItemVerdict(catalog: map<ProductId, Product>, items: seq<LineRequest>, item: LineRequest,
                    fromCart: bool, cartLines: seq<CartItem>, orders: seq<Order>, r: Reservation)
    requires r.failure.None? && r.catalog.Keys == catalog.Keys
    requires forall pid :: pid in catalog ==> r.catalog[pid].stock + RequestDemand(items, pid) == catalog[pid].stock
    ensures var r' := ReserveItem(r, item, fromCart, cartLines, orders);
            && (r'.failure.None? <==> ItemAdmissible(catalog, items, item, fromCart, cartLines))
            && (r'.failure.Some? ==> r' == r.(failure := Some(Rejection(catalog, items, item, fromCart, cartLines))))
  {
  }

  /**
   * The first loop runs to the end exactly when every item is admissible after
   * the ones before it, and then it has collected one entry per item and taken
   * from each product exactly what the request asks of it. When it returns
   * early, it does so at the first inadmissible item, and the entries (and the
   * stock decrements) of all the items before that one are kept.
   */
  lemma {:induction false} ReserveOutcome(catalog: map<ProductId, Product>, items: seq<LineRequest>, fromCart: bool,
                                          cartLines: seq<CartItem>, orders: seq<Order>)
    ensures var r := Reserve(catalog, items, fromCart, cartLines, orders);
            && Ended(catalog, items, fromCart, cartLines, r)
            && (r.failure.None? ==> |r.placed| == |items|)
  {
    if items != [] {
      var init := items[..|items| - 1];
      var last := items[|items| - 1];
      assert items == init + [last];
      ReserveOutcome(catalog, init, fromCart, cartLines, orders);
      ReserveFrame(catalog, init, fromCart, cartLines, orders);
      var r0 := Reserve(catalog, init, fromCart, cartLines, orders);
      if r0.failure.Some? {
        EndedAfterFailure(catalog, init, last, fromCart, cartLines, r0);
      } else {
        EndedStep(catalog, init, last, fromCart, cartLines, orders, r0);
      }
    }
  }

  /** After the loop has returned at item `i`, the later items change nothing. */
  lemma {:induction false} ReserveStops(catalog: map<ProductId, Product>, items: seq<LineRequest>, i: nat, fromCart: bool,
                                        cartLines: seq<CartItem>, orders: seq<Order>)
    requires i <= |items|
    requires Reserve(catalog, items[..i], fromCart, cartLines, orders).failure.Some?
    ensures Reserve(catalog, items, fromCart, cartLines, orders) == Reserve(catalog, items[..i], fromCart, cartLines, orders)
    decreases |items| - i
  {
    if i < |items| {
      var next := items[..i + 1];
      assert next[..i] == items[..i] && next[i] == items[i];
      assert Reserve(catalog, next, fromCart, cartLines, orders) == Reserve(catalog, items[..i], fromCart, cartLines, orders);
      ReserveStops(catalog, items, i + 1, fromCart, cartLines, orders);
    } else {
      assert items[..i] == items;
    }
  }

  /** What the first loop holds after `i + 1` items, from what it held after `i`. */
  lemma ReserveNext(catalog: map<ProductId, Product>, items: seq<LineRequest>, i: nat, fromCart: bool,
                    cartLines: seq<CartItem>, orders: seq<Order>)
    requires i < |items|
    ensures Reserve(catalog, items[..i + 1], fromCart, cartLines, orders) ==
            ReserveItem(Reserve(catalog, items[..i], fromCart, cartLines, orders), items[i], fromCart, cartLines, orders)
  {
    assert items[..i + 1][..i] == items[..i];
  }

  lemma ProductSetSnoc(placed: seq<Placed>, j: nat)
    requires j < |placed|
    ensures ProductSet(placed[..j + 1]) == ProductSet(placed[..j]) + {placed[j].product}
    ensures OrderLines(placed[..j + 1]) == OrderLines(placed[..j]) + [LineOf(placed[j])]
    ensures forall lines :: Cleaned(lines, placed[..j + 1]) == Without(Cleaned(lines, placed[..j]), placed[j].product)
  {
    var a := placed[..j];
    var b := placed[..j + 1];
    assert b == a + [placed[j]];
    assert b[..j] == a;
    forall p | p in ProductSet(b) ensures p in ProductSet(a) + {placed[j].product} {
      var k :| 0 <= k < |b| && b[k].product == p;
      if k < j {
        assert a[k] == b[k];
      }
    }
    forall p | p in ProductSet(a) ensures p in ProductSet(b) {
      var k :| 0 <= k < |a| && a[k].product == p;
      assert b[k] == a[k];
    }
    assert b[j] == placed[j];
  }

  // ------------------------------------------------ lemmas: create_order

  /**
   * `create_order` succeeds exactly when the user has a cart, the source is
   * "cart" or "detail", the payment method exists, the list is not empty (and
   * holds one item for "detail"), and every item is admissible after the ones
   * before it. A failed precondition changes nothing; a failure in the first
   * loop changes only stock: the items before the first rejected one stay
   * taken from stock.
   */
  lemma CreateOrderOutcome(db: Db, uid: UserId, source: string, payment: Option<nat>, items: seq<LineRequest>,
                           info: Recipient, draws: seq<Tracking.Digit>)
    requires uid in db.users && |draws| == Tracking.TrackingLength
    ensures var s := CreateOrder(db, uid, source, payment, items, info, draws);
            var prechecked := uid in db.carts && ValidSource(source) && payment.Some? && payment.value in db.payments
                              && items != [] && (source == "detail" ==> |items| == 1);
            && (s.result.Ok? <==> prechecked && Admissible(db.catalog, items, source == "cart", db.carts[uid].lines))
            && (!prechecked ==> s.db == db && s.result.Err?)
            && (uid !in db.carts ==> s.result == Err(CartNotFound))
            && (uid in db.carts && !ValidSource(source) ==> s.result == Err(InvalidSource))
            && ((uid in db.carts && ValidSource(source) && (payment.None? || payment.value !in db.payments)) ==>
                  s.result == Err(InvalidPaymentMethod))
            && ((uid in db.carts && ValidSource(source) && payment.Some? && payment.value in db.payments && items == []) ==>
                  s.result == Err(EmptyProductList))
            && ((uid in db.carts && ValidSource(source) && payment.Some? && payment.value in db.payments && items != []
                 && source == "detail" && |items| > 1) ==> s.result == Err(TooManyItems))
            && (s.result.Err? ==> s.db == db.(catalog := s.db.catalog) && SameListing(db.catalog, s.db.catalog))
            && (s.result.Err? && prechecked ==>
                  exists k :: 0 <= k < |items|
                    && Admissible(db.catalog, items[..k], source == "cart", db.carts[uid].lines)
                    && !ItemAdmissible(db.catalog, items[..k], items[k], source == "cart", db.carts[uid].lines)
                    && s.result == Err(Rejection(db.catalog, items[..k], items[k], source == "cart", db.carts[uid].lines))
                    && forall pid :: pid in db.catalog ==>
                         s.db.catalog[pid].stock + RequestDemand(items[..k], pid) == db.catalog[pid].stock)
  {
    if uid in db.carts && ValidSource(source) && payment.Some? && payment.value in db.payments
       && items != [] && (source == "detail" ==> |items| == 1) {
      var lines := db.carts[uid].lines;
      ReserveOutcome(db.catalog, items, source == "cart", lines, db.orders);
      ReserveFrame(db.catalog, items, source == "cart", lines, db.orders);
      var r := Reserve(db.catalog, items, source == "cart", lines, db.orders);
      if r.failure.Some? {
        var k := |r.placed|;
        assert 0 <= k < |items|;
      }
    }
  }

  /**
   * The order written for a first loop that collected one entry per item: it
   * belongs to the user, is pending, has a ten-digit tracking number, the
   * request's recipient (the username when no name is given), one line per
   * item in request order with the item's quantity, a total of the product's
   * price times that quantity and no rating, a total equal to the sum of its
   * line totals, and the set of requested products.
   */
  lemma NewOrderShape(catalog: map<ProductId, Product>, items: seq<LineRequest>, r: Reservation, uid: UserId,
                      info: Recipient, payment: PaymentId, username: string, draws: seq<Tracking.Digit>)
    requires Reserved(catalog, items, r) && |r.placed| == |items|
    requires |draws| == Tracking.TrackingLength
    ensures var o := NewOrder(uid, info, payment, r, username, draws);
            && o.owner == uid && o.status == Pending && o.payment == payment
            && Tracking.IsTrackingNumber(o.tracking)
            && o.recipient == (if info.name == "" then username else info.name)
            && o.phone == info.phone && o.address == info.address
            && |o.lines| == |items|
            && (forall i :: 0 <= i < |items| ==>
                  && items[i].id.Some?
                  && items[i].id.value in catalog
                  && o.lines[i] == OrderItem(items[i].id.value, RequestedQuantity(items[i]),
                                             catalog[items[i].id.value].price * RequestedQuantity(items[i]), None))
            && o.total == LinesTotal(o.lines)
            && o.products == (set i | 0 <= i < |items| && items[i].id.Some? :: items[i].id.value)
  {
    var o := NewOrder(uid, info, payment, r, username, draws);
    assert o.lines == OrderLines(r.placed);
    assert o.products == ProductSet(r.placed);
    assert ProductSet(r.placed) == (set i | 0 <= i < |items| && items[i].id.Some? :: items[i].id.value) by {
      forall pid | pid in ProductSet(r.placed)
        ensures pid in (set i | 0 <= i < |items| && items[i].id.Some? :: items[i].id.value)
      {
        var i :| 0 <= i < |r.placed| && r.placed[i].product == pid;
        assert items[i].id == Some(pid);
      }
      forall pid | pid in (set i | 0 <= i < |items| && items[i].id.Some? :: items[i].id.value)
        ensures pid in ProductSet(r.placed)
      {
        var i :| 0 <= i < |items| && items[i].id.Some? && items[i].id.value == pid;
        assert r.placed[i].product == pid;
      }
    }
  }

  /**
   * A successful `create_order` appends the order `NewOrderShape` describes,
   * with the next id, leaves earlier orders untouched, and lowers each
   * product's stock by exactly what the request asks of it.
   */
  lemma CreateOrderResult(db: Db, uid: UserId, source: string, payment: Option<nat>, items: seq<LineRequest>,
                          info: Recipient, draws: seq<Tracking.Digit>)
    requires uid in db.users && |draws| == Tracking.TrackingLength
    requires CreateOrder(db, uid, source, payment, items, info, draws).result.Ok?
    ensures var s := CreateOrder(db, uid, source, payment, items, info, draws);
            && s.result.value == |db.orders|
            && |s.db.orders| == |db.orders| + 1
            && s.db.orders[..|db.orders|] == db.orders
            && s.db.orders[|db.orders|] == NewOrder(uid, info, payment.value,
                 Reserve(db.catalog, items, source == "cart", db.carts[uid].lines, db.orders), db.users[uid].username, draws)
            && Reserved(db.catalog, items, Reserve(db.catalog, items, source == "cart", db.carts[uid].lines, db.orders))
            && |Reserve(db.catalog, items, source == "cart", db.carts[uid].lines, db.orders).placed| == |items|
            && SameListing(db.catalog, s.db.catalog)
            && (forall pid :: pid in db.catalog ==> s.db.catalog[pid].stock + RequestDemand(items, pid) == db.catalog[pid].stock)
            && s.db.users == db.users && s.db.payments == db.payments
  {
    ReserveOutcome(db.catalog, items, source == "cart", db.carts[uid].lines, db.orders);
    ReserveFrame(db.catalog, items, source == "cart", db.carts[uid].lines, db.orders);
  }

  /** Every cart line of the cleaned cart was in the cart, and it keeps exactly the lines of products not ordered. */
  lemma {:induction false} CleanedMembers(lines: seq<CartItem>, placed: seq<Placed>)
    ensures forall x :: x in Cleaned(lines, placed) <==> x in lines && x.product !in ProductSet(placed)
    ensures Distinct(lines) ==> Distinct(Cleaned(lines, placed))
  {
    if placed != [] {
      var init := placed[..|placed| - 1];
      var last := placed[|placed| - 1];
      CleanedMembers(lines, init);
      if Distinct(lines) {
        WithoutDistinct(Cleaned(lines, init), last.product);
      }
      assert ProductSet(placed) == ProductSet(init) + {last.product} by {
        assert placed == init + [last];
        forall p | p in ProductSet(placed) ensures p in ProductSet(init) + {last.product} {
          var i :| 0 <= i < |placed| && placed[i].product == p;
          if i < |init| {
            assert init[i] == placed[i];
          }
        }
        forall p | p in ProductSet(init) ensures p in ProductSet(placed) {
          var i :| 0 <= i < |init| && init[i].product == p;
          assert placed[i] == init[i];
        }
        assert placed[|placed| - 1] == last;
      }
    }
  }

  /**
   * After a successful `create_order` from the cart, the cart keeps exactly its
   * lines for products that were not ordered (whole lines are deleted,
   * whatever quantity was ordered), its aggregates are recomputed from those
   * lines, and its `products` set is left as it was. From the detail page the
   * carts are untouched.
   */
  lemma CreateOrderCleanup(db: Db, uid: UserId, source: string, payment: Option<nat>, items: seq<LineRequest>,
                           info: Recipient, draws: seq<Tracking.Digit>)
    requires uid in db.users && |draws| == Tracking.TrackingLength
    requires CreateOrder(db, uid, source, payment, items, info, draws).result.Ok?
    ensures var s := CreateOrder(db, uid, source, payment, items, info, draws);
            var o := s.db.orders[|db.orders|];
            var before := db.carts[uid];
            var after := s.db.carts[uid];
            && (source == "detail" ==> s.db.carts == db.carts)
            && (source == "cart" ==>
                  && s.db.carts == db.carts[uid := after]
                  && (forall x :: x in after.lines <==> x in before.lines && x.product !in o.products)
                  && after.products == before.products
                  && after.quantity == |after.lines|
                  && after.totalValue == SumPrices(after.lines))
  {
    var r := Reserve(db.catalog, items, source == "cart", db.carts[uid].lines, db.orders);
    CleanedMembers(db.carts[uid].lines, r.placed);
  }

  /** Swapping in a catalog with the same listing whose products agree with the orders keeps the store consistent. */
  lemma CatalogSwapConsistent(db: Db, catalog: map<ProductId, Product>)
    requires Consistent(db) && SameListing(db.catalog, catalog) && ProductsAgree(catalog, db.orders)
    ensures Consistent(db.(catalog := catalog))
  {
    forall u | u in db.carts ensures CartAgrees(db.carts[u], catalog) {
      CartAgreesListing(db.carts[u], db.catalog, catalog);
    }
  }

  /** Appending an order with a tracking number and no ratings keeps the store consistent. */
  lemma AppendOrderConsistent(db: Db, o: Order)
    requires Consistent(db) && Tracking.IsTrackingNumber(o.tracking)
    requires forall j :: 0 <= j < |o.lines| ==> o.lines[j].rating.None?
    ensures Consistent(db.(orders := db.orders + [o]))
  {
    var orders := db.orders + [o];
    forall pid | pid in db.catalog ensures db.catalog[pid].rating == MeanRating(RatingsOf(orders, pid)) {
      RatingsOfAppendUnrated(db.orders, o, pid);
    }
    forall k | 0 <= k < |orders| ensures OrderAgrees(orders[k]) {
      if k < |db.orders| {
        assert orders[k] == db.orders[k];
      }
    }
  }

  /** The cart the second loop leaves agrees with the catalog when the cart did. */
  lemma CleanedCartAgrees(cart: Cart, catalog: map<ProductId, Product>, placed: seq<Placed>)
    requires CartAgrees(cart, catalog)
    ensures CartAgrees(SavedCart(cart.(lines := Cleaned(cart.lines, placed))), catalog)
  {
    CleanedMembers(cart.lines, placed);
    var lines := Cleaned(cart.lines, placed);
    forall i | 0 <= i < |lines| ensures LineAgrees(lines[i], catalog) {
      assert lines[i] in lines;
      var m :| 0 <= m < |cart.lines| && cart.lines[m] == lines[i];
    }
  }

  /** `create_order` keeps the store consistent, whether it succeeds or fails. */
  lemma CreateOrderConsistent(db: Db, uid: UserId, source: string, payment: Option<nat>, items: seq<LineRequest>,
                              info: Recipient, draws: seq<Tracking.Digit>)
    requires uid in db.users && |draws| == Tracking.TrackingLength
    requires Consistent(db)
    ensures Consistent(CreateOrder(db, uid, source, payment, items, info, draws).db)
  {
    if uid in db.carts && ValidSource(source) && payment.Some? && payment.value in db.payments
       && items != [] && !(source == "detail" && |items| > 1) {
      var fromCart := source == "cart";
      var cart := db.carts[uid];
      var r := Reserve(db.catalog, items, fromCart, cart.lines, db.orders);
      ReserveFrame(db.catalog, items, fromCart, cart.lines, db.orders);
      ReserveKeepsProducts(db.catalog, items, fromCart, cart.lines, db.orders);
      var db1 := db.(catalog := r.catalog);
      CatalogSwapConsistent(db, r.catalog);
      if r.failure.None? {
        PlaceOrderConsistent(db1, uid, info, payment.value, r, fromCart, draws);
      }
    }
  }

  /** Appending the new order and, from the cart, cleaning the cart keeps a consistent store consistent. */
  lemma PlaceOrderConsistent(db: Db, uid: UserId, info: Recipient, payment: PaymentId, r: Reservation, fromCart: bool,
                             draws: seq<Tracking.Digit>)
    requires Consistent(db) && uid in db.users && uid in db.carts && |draws| == Tracking.TrackingLength
    ensures var o := NewOrder(uid, info, payment, r, db.users[uid].username, draws);
            var cart := db.carts[uid];
            var carts := if fromCart then db.carts[uid := SavedCart(cart.(lines := Cleaned(cart.lines, r.placed)))]
                         else db.carts;
            Consistent(db.(orders := db.orders + [o], carts := carts))
  {
    var o := NewOrder(uid, info, payment, r, db.users[uid].username, draws);
    var cart := db.carts[uid];
    assert o.lines == OrderLines(r.placed);
    AppendOrderConsistent(db, o);
    var db2 := db.(orders := db.orders + [o]);
    if fromCart {
      assert CartAgrees(cart, db.catalog);
      CleanedCartAgrees(cart, db.catalog, r.placed);
      Carts.ReplaceCartConsistent(db2, uid, SavedCart(cart.(lines := Cleaned(cart.lines, r.placed))));
    }
  }

  /**
   * A concrete run of the partial commit: two units of product 1 are taken
   * from stock although the order fails on product 2, which is out of stock.
   */
  lemma PartialCommitWitness()
    ensures var p1 := Product("shirt", 100, 5, InStock, None);
            var p2 := Product("hat", 50, 0, OutOfStock, None);
            var cart := Cart([CartItem(1, 2, 200), CartItem(2, 1, 50)], {1, 2}, 2, 250);
            var db := Db(map[7 := Account("an", "an@example.com", "user", false)], map[1 := p1, 2 := p2],
                         {3}, map[7 := cart], []);
            var items := [LineRequest(Some(1), Some(2)), LineRequest(Some(2), Some(1))];
            var s := CreateOrder(db, 7, "cart", Some(3), items, Recipient("", "", ""), [0, 0, 0, 0, 0, 0, 0, 0, 0, 0]);
            && s.result == Err(InsufficientStock)
            && 1 in s.db.catalog && s.db.catalog[1].stock == 3
            && s.db.orders == []
  {
    var p1 := Product("shirt", 100, 5, InStock, None);
    var p2 := Product("hat", 50, 0, OutOfStock, None);
    var items := [LineRequest(Some(1), Some(2)), LineRequest(Some(2), Some(1))];
    var lines := [CartItem(1, 2, 200), CartItem(2, 1, 50)];
    var catalog := map[1 := p1, 2 := p2];
    assert items[..1][..0] == [];
    assert Reserve(catalog, items[..1][..0], true, lines, []) == Start(catalog);
    assert FindLine(lines, 1) == Some(0);
    var r1 := ReserveItem(Start(catalog), items[0], true, lines, []);
    assert r1.failure.None? && r1.catalog[1].stock == 3 && r1.catalog[2] == p2;
    assert Reserve(catalog, items[..1], true, lines, []) == r1;
    var r2 := ReserveItem(r1, items[1], true, lines, []);
    assert r2 == r1.(failure := Some(InsufficientStock));
    assert Reserve(catalog, items, true, lines, []) == r2;
  }

  // ------------------------------------------------ lemmas: cancel_order

  /**
   * `cancel_order` succeeds exactly when the order exists, belongs to the user
   * and is pending; then only that order changes, to cancelled, keeping its
   * tracking number. On any failure nothing changes. Stock is never restored.
   */
  lemma CancelOrderOutcome(db: Db, uid: UserId, pk: nat, draws: seq<Tracking.Digit>)
    requires uid in db.users && |draws| == Tracking.TrackingLength
    ensures var s := CancelOrder(db, uid, pk, draws);
            && (s.result.Ok? <==> pk < |db.orders| && db.orders[pk].owner == uid && db.orders[pk].status == Pending)
            && (pk >= |db.orders| ==> s.result == Err(OrderNotFound))
            && (pk < |db.orders| && db.orders[pk].owner != uid ==> s.result == Err(Forbidden))
            && (pk < |db.orders| && db.orders[pk].owner == uid && db.orders[pk].status != Pending ==>
                  s.result == Err(NotCancellable))
            && (s.result.Err? ==> s.db == db)
            && s.db.catalog == db.catalog && s.db.carts == db.carts
            && s.db.users == db.users && s.db.payments == db.payments
            && |s.db.orders| == |db.orders|
            && (forall k :: 0 <= k < |db.orders| && k != pk ==> s.db.orders[k] == db.orders[k])
            && (s.result.Ok? && db.orders[pk].tracking != "" ==>
                  s.db.orders[pk] == db.orders[pk].(status := Cancelled,
                    recipient := if db.orders[pk].recipient == "" then db.users[uid].username else db.orders[pk].recipient))
  {
  }

  /** A cancelled order cannot be cancelled again: the second request fails and changes nothing. */
  lemma CancelTwiceFails(db: Db, uid: UserId, pk: nat, draws: seq<Tracking.Digit>, later: seq<Tracking.Digit>)
    requires uid in db.users && |draws| == Tracking.TrackingLength && |later| == Tracking.TrackingLength
    requires CancelOrder(db, uid, pk, draws).result.Ok?
    ensures var s := CancelOrder(db, uid, pk, draws);
            CancelOrder(s.db, uid, pk, later) == Step(s.db, Err(NotCancellable))
  {
  }

  lemma CancelOrderConsistent(db: Db, uid: UserId, pk: nat, draws: seq<Tracking.Digit>)
    requires uid in db.users && |draws| == Tracking.TrackingLength
    requires Consistent(db)
    ensures Consistent(CancelOrder(db, uid, pk, draws).db)
  {
    var s := CancelOrder(db, uid, pk, draws);
    if s.result.Ok? {
      var o := s.db.orders[pk];
      assert o.lines == db.orders[pk].lines;
      assert OrderAgrees(db.orders[pk]);
      assert OrderAgrees(o);
      assert forall k :: 0 <= k < |s.db.orders| ==> s.db.orders[k].lines == db.orders[k].lines;
      forall pid | pid in db.catalog ensures RatingsOf(s.db.orders, pid) == RatingsOf(db.orders, pid) {
        RatingsOfSameLines(db.orders, s.db.orders, pid);
      }
    }
  }

  /** The rating pools depend only on the orders' lines. */
  lemma {:induction false} RatingsOfSameLines(a: seq<Order>, b: seq<Order>, pid: ProductId)
    requires |a| == |b| && forall k :: 0 <= k < |a| ==> a[k].lines == b[k].lines
    ensures RatingsOf(a, pid) == RatingsOf(b, pid)
  {
    if a != [] {
      RatingsOfSameLines(a[1..], b[1..], pid);
    }
  }

  // ------------------------------------------------ lemmas: rate_product

  /**
   * `rate_product` succeeds exactly when the order exists, belongs to the
   * user and is completed, the product exists, the rating is in 1..5, the
   * order has exactly one line for the product and that line is not rated
   * yet. On any failure nothing changes.
   */
  lemma RateProductOutcome(db: Db, uid: UserId, pk: nat, productId: Option<nat>, rating: int)
    requires uid in db.users
    ensures var s := RateProduct(db, uid, pk, productId, rating);
            && (s.result.Ok? <==>
                  && pk < |db.orders| && db.orders[pk].owner == uid && db.orders[pk].status == Completed
                  && productId.Some? && productId.value in db.catalog
                  && 1 <= rating <= 5
                  && (exists j :: 0 <= j < |db.orders[pk].lines|
                        && db.orders[pk].lines[j].product == productId.value
                        && db.orders[pk].lines[j].rating.None?
                        && forall k :: 0 <= k < |db.orders[pk].lines| && k != j ==>
                             db.orders[pk].lines[k].product != productId.value))
            && (pk >= |db.orders| ==> s.result == Err(OrderNotFound))
            && (pk < |db.orders| && db.orders[pk].owner != uid ==> s.result == Err(Forbidden))
            && (pk < |db.orders| && db.orders[pk].owner == uid && db.orders[pk].status != Completed ==>
                  s.result == Err(NotRateable))
            && ((pk < |db.orders| && db.orders[pk].owner == uid && db.orders[pk].status == Completed
                 && (productId.None? || productId.value !in db.catalog)) ==> s.result == Err(ProductNotFound))
            && ((pk < |db.orders| && db.orders[pk].owner == uid && db.orders[pk].status == Completed
                 && productId.Some? && productId.value in db.catalog && (rating < 1 || rating > 5)) ==>
                  s.result == Err(RatingOutOfRange))
            && ((pk < |db.orders| && db.orders[pk].owner == uid && db.orders[pk].status == Completed
                 && productId.Some? && productId.value in db.catalog && 1 <= rating <= 5) ==>
                  var lines := db.orders[pk].lines;
                  var pid := productId.value;
                  && ((forall j :: 0 <= j < |lines| ==> lines[j].product != pid) ==> s.result == Err(NotInOrder))
                  && ((exists j, k :: 0 <= j < k < |lines| && lines[j].product == pid && lines[k].product == pid) ==>
                        s.result == Err(DuplicateOrderLine))
                  && (forall j :: (0 <= j < |lines| && lines[j].product == pid && lines[j].rating.Some?
                                   && (forall k :: 0 <= k < |lines| && k != j ==> lines[k].product != pid)) ==>
                        s.result == Err(AlreadyRated)))
            && (s.result.Err? ==> s.db == db)
            && (s.result.Ok? ==> s.result.value == Rated(db.users[uid].username, db.catalog[productId.value].name, rating as nat))
  {
    var s := RateProduct(db, uid, pk, productId, rating);
    if pk < |db.orders| && db.orders[pk].owner == uid && db.orders[pk].status == Completed
       && productId.Some? && productId.value in db.catalog && 1 <= rating <= 5 {
      GetOrderLineOutcome(db.orders[pk].lines, productId.value);
    }
  }

  /**
   * The lookup finds the one line for the product when there is exactly one,
   * and otherwise reports no line or several lines.
   */
  lemma GetOrderLineOutcome(lines: seq<OrderItem>, pid: ProductId)
    ensures (forall j :: 0 <= j < |lines| ==> lines[j].product != pid) ==> GetOrderLine(lines, pid) == Err(NotInOrder)
    ensures (exists j, k :: 0 <= j < k < |lines| && lines[j].product == pid && lines[k].product == pid) ==>
              GetOrderLine(lines, pid) == Err(DuplicateOrderLine)
    ensures forall j :: (0 <= j < |lines| && lines[j].product == pid
                         && (forall k :: 0 <= k < |lines| && k != j ==> lines[k].product != pid)) ==>
              GetOrderLine(lines, pid) == Ok(j)
  {
    forall j | 0 <= j < |lines| && lines[j].product == pid
               && (forall k :: 0 <= k < |lines| && k != j ==> lines[k].product != pid)
      ensures GetOrderLine(lines, pid) == Ok(j)
    {
      GetOrderLineUnique(lines, pid, j);
    }
  }

  /** A product with exactly one line in the order is found at that line. */
  lemma {:induction false} GetOrderLineUnique(lines: seq<OrderItem>, pid: ProductId, j: nat)
    requires j < |lines| && lines[j].product == pid
    requires forall k :: 0 <= k < |lines| && k != j ==> lines[k].product != pid
    ensures GetOrderLine(lines, pid) == Ok(j)
  {
    var tail := lines[1..];
    if j == 0 {
      assert forall k :: 0 <= k < |tail| ==> tail[k].product != pid by {
        forall k | 0 <= k < |tail| ensures tail[k].product != pid {
          assert tail[k] == lines[k + 1];
        }
      }
    } else {
      forall k | 0 <= k < |tail| && k != j - 1 ensures tail[k].product != pid {
        assert tail[k] == lines[k + 1];
      }
      GetOrderLineUnique(tail, pid, j - 1);
    }
  }

  /**
   * A line is rated at most once: after a successful rating, a second request
   * for the same product of the same order fails (with the range error if its
   * rating is out of range, which is checked first, and otherwise because the
   * line is already rated) and changes nothing.
   */
  lemma RateWriteOnce(db: Db, uid: UserId, pk: nat, productId: Option<nat>, rating: int, again: int)
    requires uid in db.users
    requires RateProduct(db, uid, pk, productId, rating).result.Ok?
    ensures var s := RateProduct(db, uid, pk, productId, rating);
            var t := RateProduct(s.db, uid, pk, productId, again);
            t == Step(s.db, Err(if 1 <= again <= 5 then AlreadyRated else RatingOutOfRange))
  {
    var s := RateProduct(db, uid, pk, productId, rating);
    var lines := db.orders[pk].lines;
    var j := GetOrderLine(lines, productId.value).value;
    var lines' := s.db.orders[pk].lines;
    assert lines' == lines[j := lines'[j]];
    GetOrderLineUnique(lines', productId.value, j);
  }

  /**
   * A successful rating changes only the rated line, whose rating is set and
   * whose total is recomputed from the product's current price, and the
   * product's row; every other line, order, product and cart is unchanged.
   */
  lemma RateChangesOneLine(db: Db, uid: UserId, pk: nat, productId: Option<nat>, rating: int)
    requires uid in db.users
    requires RateProduct(db, uid, pk, productId, rating).result.Ok?
    ensures var s := RateProduct(db, uid, pk, productId, rating);
            var pid := productId.value;
            var j := GetOrderLine(db.orders[pk].lines, pid).value;
            var line := db.orders[pk].lines[j];
            && |s.db.orders| == |db.orders|
            && (forall k :: 0 <= k < |db.orders| && k != pk ==> s.db.orders[k] == db.orders[k])
            && s.db.orders[pk] == db.orders[pk].(lines := db.orders[pk].lines[j :=
                 line.(rating := Some(rating as nat), totalValue := db.catalog[pid].price * line.quantity)])
            && SameListing(db.catalog, s.db.catalog)
            && (forall p :: p in db.catalog && p != pid ==> s.db.catalog[p] == db.catalog[p])
            && s.db.catalog[pid].stock == db.catalog[pid].stock
            && s.db.carts == db.carts && s.db.users == db.users && s.db.payments == db.payments
  {
  }

  /**
   * On a consistent store, a successful rating makes the product's rating the
   * mean of its old ratings and the new one, which lies in 1..5, and keeps the
   * store consistent.
   */
  lemma RateSetsMean(db: Db, uid: UserId, pk: nat, productId: Option<nat>, rating: int)
    requires uid in db.users
    requires Consistent(db)
    requires RateProduct(db, uid, pk, productId, rating).result.Ok?
    ensures var s := RateProduct(db, uid, pk, productId, rating);
            var pid := productId.value;
            var pool := RatingsOf(db.orders, pid);
            && s.db.catalog[pid].rating == Some(((SumNat(pool) + rating) as real) / ((|pool| + 1) as real))
            && 1.0 <= s.db.catalog[pid].rating.value <= 5.0
            && Consistent(s.db)
  {
    var pid := productId.value;
    var o := db.orders[pk];
    var j := GetOrderLine(o.lines, pid).value;
    var line := SavedOrderItem(o.lines[j].(rating := Some(rating as nat)), db.catalog[pid].price);
    RateLineConsistent(db, pk, j, line, rating as nat);
  }

  /**
   * Writing a rating in 1..5 into an unrated line of an order, and re-saving
   * the line's product, sets the product's rating to the mean of its old
   * ratings and the new one, in 1..5, and keeps the store consistent.
   */
  lemma RateLineConsistent(db: Db, pk: nat, j: nat, x: OrderItem, r: nat)
    requires Consistent(db)
    requires pk < |db.orders| && j < |db.orders[pk].lines| && db.orders[pk].lines[j].rating.None?
    requires x.product == db.orders[pk].lines[j].product && x.rating == Some(r) && 1 <= r <= 5
    requires x.product in db.catalog
    ensures var o := db.orders[pk];
            var orders := db.orders[pk := o.(lines := o.lines[j := x])];
            var pid := x.product;
            var pool := RatingsOf(db.orders, pid);
            var rating := MeanRating(RatingsOf(orders, pid));
            && rating == Some(((SumNat(pool) + r) as real) / ((|pool| + 1) as real))
            && 1.0 <= rating.value <= 5.0
            && Consistent(db.(orders := orders, catalog := db.catalog[pid := SavedClothes(db.catalog[pid], pid, orders)]))
  {
    var o := db.orders[pk];
    var pid := x.product;
    var rated := db.orders[pk := o.(lines := o.lines[j := x])];
    var catalog := db.catalog[pid := SavedClothes(db.catalog[pid], pid, rated)];
    forall p ensures p == pid ==> |RatingsOf(rated, p)| == |RatingsOf(db.orders, p)| + 1 &&
                                  SumNat(RatingsOf(rated, p)) == SumNat(RatingsOf(db.orders, p)) + r
                     ensures p != pid ==> RatingsOf(rated, p) == RatingsOf(db.orders, p)
    {
      RatingsOfRate(db.orders, pk, j, x, r, p);
    }
    RateLineAgrees(db.orders, pk, j, x);
    RatingsOfInRange(rated, pid);
    MeanRatingInRange(RatingsOf(rated, pid));
    forall u | u in db.carts ensures CartAgrees(db.carts[u], catalog) {
      CartAgreesListing(db.carts[u], db.catalog, catalog);
    }
  }

  /** Writing a rating in 1..5 into a line keeps every order's ratings in range. */
  lemma RateLineAgrees(orders: seq<Order>, pk: nat, j: nat, x: OrderItem)
    requires forall k :: 0 <= k < |orders| ==> OrderAgrees(orders[k])
    requires pk < |orders| && j < |orders[pk].lines| && RatingInRange(x.rating)
    ensures var o := orders[pk];
            var rated := orders[pk := o.(lines := o.lines[j := x])];
            forall k :: 0 <= k < |rated| ==> OrderAgrees(rated[k])
  {
    var o := orders[pk];
    assert OrderAgrees(o);
    var lines' := o.lines[j := x];
    forall i | 0 <= i < |lines'| ensures RatingInRange(lines'[i].rating) {
      if i != j {
        assert lines'[i] == o.lines[i];
      }
    }
  }
}
