/**
 * The store's tables and the derivation rules of the `save()` hooks of
 * clothes/models.py. Each Django model row is a value; a table is a map keyed by
 * primary key (users, products, carts by owner) or, for orders, a sequence whose
 * index is the order id. Cart lines and order lines are kept inside their cart
 * and order, in primary-key order.
 */
module Shop {
  import Tracking

  type UserId = nat
  type ProductId = nat
  type PaymentId = nat
  type OrderId = nat

  datatype Option<T> = None | Some(value: T)

  /** Python's `if not x` on an id or a quantity from the request: absent and 0 are both false. */
  predicate Truthy(x: Option<nat>) {
    x.Some? && x.value != 0
  }

  const AdminRole: string := "admin"
  const UserRole: string := "user"

  /** 'còn hàng' and 'hết hàng'. */
  datatype StockStatus = InStock | OutOfStock

  /** 'Chờ xác nhận', 'Đang chuẩn bị', 'Đang giao', 'Hoàn thành', 'Hủy'. */
  datatype OrderStatus = Pending | Preparing | Shipping | Completed | Cancelled

  datatype Account = Account(username: string, email: string, role: string, isStaff: bool)

  datatype Product = Product(name: string, price: nat, stock: nat, status: StockStatus, rating: Option<real>)

  /** A CartItem row: its product, quantity and cached price (product price times quantity). */
  datatype CartItem = CartItem(product: ProductId, quantity: nat, price: nat)

  /** A Cart row with its CartItem rows, its `products` many-to-many set and its cached aggregates. */
  datatype Cart = Cart(lines: seq<CartItem>, products: set<ProductId>, quantity: nat, totalValue: nat)

  datatype OrderItem = OrderItem(product: ProductId, quantity: nat, totalValue: nat, rating: Option<nat>)

  datatype Order = Order(
    owner: UserId,
    tracking: string,
    status: OrderStatus,
    recipient: string,
    phone: string,
    address: string,
    total: nat,
    products: set<ProductId>,
    payment: PaymentId,
    lines: seq<OrderItem>)

  datatype Db = Db(
    users: map<UserId, Account>,
    catalog: map<ProductId, Product>,
    payments: set<PaymentId>,
    carts: map<UserId, Cart>,
    orders: seq<Order>)

  /** The outcomes a handler reports instead of its normal response. */
  datatype Error =
    | CartNotFound
    | MissingProductId
    | MissingIdOrQuantity
    | ProductNotFound
    | InsufficientStock
    | LineNotFound
    | InvalidSource
    | InvalidPaymentMethod
    | EmptyProductList
    | TooManyItems
    | MissingItemId
    | NotInCart
    | OrderNotFound
    | Forbidden
    | NotCancellable
    | NotRateable
    | RatingOutOfRange
    | NotInOrder
    | DuplicateOrderLine
    | AlreadyRated
    | EmptyEmail

  datatype Result<T> = Ok(value: T) | Err(error: Error)

  /** The store after a handler ran, and what the handler answered. */
  datatype Step<T> = Step(db: Db, result: Result<T>)

  /** Writes row `i` of a table held as a sequence; `i == |s|` inserts a new last row. */
  function Put<T>(s: seq<T>, i: nat, x: T): (r: seq<T>)
    requires i <= |s|
  {
    if i == |s| then s + [x] else s[i := x]
  }

  function RemoveAt<T>(s: seq<T>, i: nat): seq<T>
    requires i < |s|
  {
    s[..i] + s[i + 1..]
  }

  // ---------------------------------------------------------------- products

  function StatusOf(stock: nat): StockStatus {
    if stock == 0 then OutOfStock else InStock
  }

  /** The non-null ratings of the order lines of one order that are for `pid`. */
  function LineRatings(lines: seq<OrderItem>, pid: ProductId): seq<nat> {
    if lines == [] then []
    else (if lines[0].product == pid && lines[0].rating.Some? then [lines[0].rating.value] else [])
         + LineRatings(lines[1..], pid)
  }

  /** `OrderItem.objects.filter(product=pid).exclude(rating__isnull=True)`. */
  function RatingsOf(orders: seq<Order>, pid: ProductId): seq<nat> {
    if orders == [] then [] else LineRatings(orders[0].lines, pid) + RatingsOf(orders[1..], pid)
  }

  function SumNat(s: seq<nat>): nat {
    if s == [] then 0 else s[0] + SumNat(s[1..])
  }

  /** The mean of the ratings, or None when there are none. */
  function MeanRating(rs: seq<nat>): Option<real> {
    if |rs| == 0 then None else Some((SumNat(rs) as real) / (|rs| as real))
  }

  /** `Clothes.save`: status from the stock level, then the rating from the order lines. */
  function SavedClothes(p: Product, pid: ProductId, orders: seq<Order>): Product {
    p.(status := StatusOf(p.stock), rating := MeanRating(RatingsOf(orders, pid)))
  }

  // ------------------------------------------------------------------- carts

  /** `CartItem.save`: the cached price is the product's price times the quantity. */
  function SavedCartItem(line: CartItem, productPrice: nat): CartItem {
    line.(price := productPrice * line.quantity)
  }

  function SumPrices(lines: seq<CartItem>): nat {
    if lines == [] then 0 else lines[0].price + SumPrices(lines[1..])
  }

  /** `Cart.save`: the number of lines and the sum of their cached prices. */
  function SavedCart(c: Cart): Cart {
    c.(quantity := |c.lines|, totalValue := SumPrices(c.lines))
  }

  /** The cart `Cart.objects.get_or_create` makes: field defaults, then `Cart.save`. */
  function NewCart(): Cart {
    SavedCart(Cart([], {}, 1, 0))
  }

  /** `CartItem.objects.filter(cart=..., product=pid).first()`: the first line for `pid`. */
  function FindLine(lines: seq<CartItem>, pid: ProductId): (r: Option<nat>)
    ensures r.Some? ==> r.value < |lines| && lines[r.value].product == pid
    ensures r.Some? ==> forall j :: 0 <= j < r.value ==> lines[j].product != pid
    ensures r.None? <==> forall j :: 0 <= j < |lines| ==> lines[j].product != pid
  {
    if lines == [] then None
    else if lines[0].product == pid then Some(0)
    else match FindLine(lines[1..], pid)
      case None => None
      case Some(k) => Some(k + 1)
  }

  /** `CartItem.objects.filter(cart=..., product=pid).delete()`. */
  function Without(lines: seq<CartItem>, pid: ProductId): (r: seq<CartItem>)
    ensures forall x :: x in r <==> x in lines && x.product != pid
  {
    if lines == [] then []
    else (if lines[0].product == pid then [] else [lines[0]]) + Without(lines[1..], pid)
  }

  /** Total quantity of `pid` over the lines (the quantity of its line, or 0). */
  function QuantityOf(lines: seq<CartItem>, pid: ProductId): nat {
    if lines == [] then 0
    else (if lines[0].product == pid then lines[0].quantity else 0) + QuantityOf(lines[1..], pid)
  }

  /**
   * The total `add_to_cart` and `remove_from_cart` compute from the lines at
   * the products' live prices (a line's product always exists: a dangling one
   * would count 0).
   */
  function ValueAt(lines: seq<CartItem>, catalog: map<ProductId, Product>): nat {
    if lines == [] then 0
    else (if lines[0].product in catalog then lines[0].quantity * catalog[lines[0].product].price else 0)
         + ValueAt(lines[1..], catalog)
  }

  predicate Distinct(lines: seq<CartItem>) {
    forall i, j :: 0 <= i < j < |lines| ==> lines[i].product != lines[j].product
  }

  // ------------------------------------------------------------------ orders

  /** `OrderItem.save`: the line total is the product's price times the quantity. */
  function SavedOrderItem(item: OrderItem, productPrice: nat): OrderItem {
    item.(totalValue := productPrice * item.quantity)
  }

  /**
   * `Order.save`: an empty recipient name becomes the owner's username, and a
   * tracking number is generated only when none is set.
   */
  function SavedOrder(o: Order, username: string, draws: seq<Tracking.Digit>): Order
    requires |draws| == Tracking.TrackingLength
  {
    o.(recipient := if o.recipient == "" then username else o.recipient,
       tracking := if o.tracking == "" then Tracking.GenerateTrackingNumber(draws) else o.tracking)
  }

  predicate RatingInRange(r: Option<nat>) {
    r.Some? ==> 1 <= r.value <= 5
  }

  // ------------------------------------------------------------- consistency

  predicate LineAgrees(line: CartItem, catalog: map<ProductId, Product>) {
    line.product in catalog && line.price == catalog[line.product].price * line.quantity
  }

  /** A cart whose cached values agree with its lines and with the catalog. */
  predicate CartAgrees(c: Cart, catalog: map<ProductId, Product>) {
    && Distinct(c.lines)
    && (forall i :: 0 <= i < |c.lines| ==> LineAgrees(c.lines[i], catalog))
    && c.quantity == |c.lines|
    && c.totalValue == SumPrices(c.lines)
  }

  predicate OrderAgrees(o: Order) {
    && Tracking.IsTrackingNumber(o.tracking)
    && forall j :: 0 <= j < |o.lines| ==> RatingInRange(o.lines[j].rating)
  }

  /** Every cached or derived field agrees with the rows it is derived from. */
  ghost predicate Consistent(db: Db) {
    && (forall pid :: pid in db.catalog ==> db.catalog[pid].status == StatusOf(db.catalog[pid].stock))
    && (forall pid :: pid in db.catalog ==> db.catalog[pid].rating == MeanRating(RatingsOf(db.orders, pid)))
    && (forall uid :: uid in db.carts ==> CartAgrees(db.carts[uid], db.catalog))
    && (forall k :: 0 <= k < |db.orders| ==> OrderAgrees(db.orders[k]))
  }

  /** Two catalogs with the same products, names and prices (stock, status and rating may differ). */
  predicate SameListing(a: map<ProductId, Product>, b: map<ProductId, Product>) {
    && a.Keys == b.Keys
    && forall pid :: pid in a ==> b[pid].price == a[pid].price && b[pid].name == a[pid].name
  }

  /** Whether a cart agrees with the catalog depends only on the catalog's prices. */
  lemma CartAgreesListing(c: Cart, a: map<ProductId, Product>, b: map<ProductId, Product>)
    requires CartAgrees(c, a) && SameListing(a, b)
    ensures CartAgrees(c, b)
  {
    forall i | 0 <= i < |c.lines| ensures LineAgrees(c.lines[i], b) {
      assert LineAgrees(c.lines[i], a);
    }
  }

  // ------------------------------------------------------- lemmas: cart sums

  lemma {:induction false} SumPricesConcat(a: seq<CartItem>, b: seq<CartItem>)
    ensures SumPrices(a + b) == SumPrices(a) + SumPrices(b)
  {
    if a != [] {
      SumPricesConcat(a[1..], b);
      assert (a + b)[1..] == a[1..] + b;
    } else {
      assert a + b == b;
    }
  }

  lemma {:induction false} QuantityOfConcat(a: seq<CartItem>, b: seq<CartItem>, pid: ProductId)
    ensures QuantityOf(a + b, pid) == QuantityOf(a, pid) + QuantityOf(b, pid)
  {
    if a != [] {
      QuantityOfConcat(a[1..], b, pid);
      assert (a + b)[1..] == a[1..] + b;
    } else {
      assert a + b == b;
    }
  }

  lemma SplitAt<T>(s: seq<T>, i: nat, x: T)
    requires i < |s|
    ensures s == s[..i] + [s[i]] + s[i + 1..]
    ensures s[i := x] == s[..i] + [x] + s[i + 1..]
  {
  }

  /** Replacing one line changes the cart's sum by the difference of the two cached prices. */
  lemma SumPricesUpdate(s: seq<CartItem>, i: nat, x: CartItem)
    requires i < |s|
    ensures SumPrices(s[i := x]) + s[i].price == SumPrices(s) + x.price
  {
    SplitAt(s, i, x);
    SumPricesConcat(s[..i] + [s[i]], s[i + 1..]);
    SumPricesConcat(s[..i], [s[i]]);
    SumPricesConcat(s[..i] + [x], s[i + 1..]);
    SumPricesConcat(s[..i], [x]);
  }

  lemma SumPricesAppend(s: seq<CartItem>, x: CartItem)
    ensures SumPrices(s + [x]) == SumPrices(s) + x.price
  {
    SumPricesConcat(s, [x]);
  }

  lemma SumPricesRemove(s: seq<CartItem>, i: nat)
    requires i < |s|
    ensures SumPrices(RemoveAt(s, i)) + s[i].price == SumPrices(s)
  {
    SplitAt(s, i, s[i]);
    SumPricesConcat(s[..i] + [s[i]], s[i + 1..]);
    SumPricesConcat(s[..i], [s[i]]);
    SumPricesConcat(s[..i], s[i + 1..]);
  }

  lemma QuantityOfUpdate(s: seq<CartItem>, i: nat, x: CartItem, pid: ProductId)
    requires i < |s| && x.product == s[i].product
    ensures QuantityOf(s[i := x], pid) ==
            if pid == x.product then QuantityOf(s, pid) - s[i].quantity + x.quantity else QuantityOf(s, pid)
  {
    SplitAt(s, i, x);
    QuantityOfConcat(s[..i] + [s[i]], s[i + 1..], pid);
    QuantityOfConcat(s[..i], [s[i]], pid);
    QuantityOfConcat(s[..i] + [x], s[i + 1..], pid);
    QuantityOfConcat(s[..i], [x], pid);
  }

  lemma QuantityOfAppend(s: seq<CartItem>, x: CartItem, pid: ProductId)
    ensures QuantityOf(s + [x], pid) == QuantityOf(s, pid) + if pid == x.product then x.quantity else 0
  {
    QuantityOfConcat(s, [x], pid);
  }

  lemma QuantityOfRemove(s: seq<CartItem>, i: nat, pid: ProductId)
    requires i < |s|
    ensures QuantityOf(RemoveAt(s, i), pid) + (if pid == s[i].product then s[i].quantity else 0) == QuantityOf(s, pid)
  {
    SplitAt(s, i, s[i]);
    QuantityOfConcat(s[..i] + [s[i]], s[i + 1..], pid);
    QuantityOfConcat(s[..i], [s[i]], pid);
    QuantityOfConcat(s[..i], s[i + 1..], pid);
  }

  /** Without a line for `pid`, the quantity of `pid` is 0. */
  lemma {:induction false} QuantityOfAbsent(s: seq<CartItem>, pid: ProductId)
    requires forall j :: 0 <= j < |s| ==> s[j].product != pid
    ensures QuantityOf(s, pid) == 0
  {
    if s != [] {
      QuantityOfAbsent(s[1..], pid);
    }
  }

  /** In a cart without duplicate products, the quantity of a product is that of its one line. */
  lemma QuantityOfDistinct(s: seq<CartItem>, i: nat)
    requires Distinct(s) && i < |s|
    ensures QuantityOf(s, s[i].product) == s[i].quantity
  {
    var pid := s[i].product;
    SplitAt(s, i, s[i]);
    QuantityOfConcat(s[..i] + [s[i]], s[i + 1..], pid);
    QuantityOfConcat(s[..i], [s[i]], pid);
    QuantityOfAbsent(s[..i], pid);
    var tail := s[i + 1..];
    forall j | 0 <= j < |tail|
      ensures tail[j].product != pid
    {
      assert tail[j] == s[i + 1 + j];
    }
    QuantityOfAbsent(tail, pid);
  }

  /**
   * The value `add_to_cart` and `remove_from_cart` assign before `Cart.save`
   * (the sum of quantity times live price) equals the sum of the cached line
   * prices that `Cart.save` then stores, whenever the cached prices agree with
   * the catalog; an empty cart is worth 0 either way.
   */
  lemma {:induction false} CartValueReconciles(lines: seq<CartItem>, catalog: map<ProductId, Product>)
    requires forall i :: 0 <= i < |lines| ==> LineAgrees(lines[i], catalog)
    ensures SumPrices(lines) == ValueAt(lines, catalog)
    ensures lines == [] ==> SumPrices(lines) == 0
  {
    if lines != [] {
      assert LineAgrees(lines[0], catalog);
      assert forall i :: 0 <= i < |lines[1..]| ==> lines[1..][i] == lines[i + 1];
      CartValueReconciles(lines[1..], catalog);
    }
  }

  /**
   * The delete keeps the other lines in their order: deleting from two runs of
   * lines one after the other is deleting from each run.
   */
  lemma {:induction false} WithoutConcat(a: seq<CartItem>, b: seq<CartItem>, pid: ProductId)
    ensures Without(a + b, pid) == Without(a, pid) + Without(b, pid)
  {
    if a != [] {
      assert (a + b)[0] == a[0];
      assert (a + b)[1..] == a[1..] + b;
      WithoutConcat(a[1..], b, pid);
    } else {
      assert a + b == b;
    }
  }

  /** After the delete, the first line of any other product is the same line as before it. */
  lemma {:induction false} WithoutFindLine(lines: seq<CartItem>, pid: ProductId, p: ProductId)
    requires p != pid
    ensures var r := Without(lines, pid);
            && (FindLine(r, p).None? <==> FindLine(lines, p).None?)
            && (FindLine(r, p).Some? ==> r[FindLine(r, p).value] == lines[FindLine(lines, p).value])
  {
    if lines != [] {
      WithoutFindLine(lines[1..], pid, p);
      var w := Without(lines[1..], pid);
      var r := Without(lines, pid);
      if lines[0].product == p {
        assert r == [lines[0]] + w;
        assert FindLine(r, p) == Some(0);
      } else {
        var f := FindLine(lines[1..], p);
        assert FindLine(lines, p) == if f.Some? then Some(f.value + 1) else None;
        if f.Some? {
          assert lines[f.value + 1] == lines[1..][f.value];
        }
        if lines[0].product == pid {
          assert r == w;
        } else {
          assert r == [lines[0]] + w;
          assert r[1..] == w;
          var g := FindLine(w, p);
          assert FindLine(r, p) == if g.Some? then Some(g.value + 1) else None;
          if g.Some? {
            assert r[g.value + 1] == w[g.value];
          }
        }
      }
    }
  }

  /** A cart without a line for `pid` is left exactly as it was. */
  lemma {:induction false} WithoutAbsent(lines: seq<CartItem>, pid: ProductId)
    requires forall k :: 0 <= k < |lines| ==> lines[k].product != pid
    ensures Without(lines, pid) == lines
  {
    if lines != [] {
      WithoutAbsent(lines[1..], pid);
      assert [lines[0]] + lines[1..] == lines;
    }
  }

  /** Deleting every line of one product keeps the remaining lines one per product. */
  lemma {:induction false} WithoutDistinct(lines: seq<CartItem>, pid: ProductId)
    requires Distinct(lines)
    ensures Distinct(Without(lines, pid))
  {
    if lines != [] {
      var tail := lines[1..];
      TailDistinct(lines);
      WithoutDistinct(tail, pid);
      var w := Without(tail, pid);
      if lines[0].product != pid {
        forall k | 0 <= k < |w| ensures w[k].product != lines[0].product {
          assert w[k] in w;
        }
        ConsDistinct(lines[0], w);
        assert Without(lines, pid) == [lines[0]] + w;
      } else {
        assert Without(lines, pid) == [] + w;
      }
    }
  }

  /** The lines after the first of a cart with one line per product: one per product, none for the first's product. */
  lemma TailDistinct(lines: seq<CartItem>)
    requires Distinct(lines) && lines != []
    ensures Distinct(lines[1..])
    ensures forall x :: x in lines[1..] ==> x.product != lines[0].product
  {
    var tail := lines[1..];
    forall i, j | 0 <= i < j < |tail| ensures tail[i].product != tail[j].product {
      assert tail[i] == lines[i + 1] && tail[j] == lines[j + 1];
    }
    forall x | x in tail ensures x.product != lines[0].product {
      var m :| 0 <= m < |tail| && tail[m] == x;
      assert tail[m] == lines[m + 1];
    }
  }

  lemma ConsDistinct(x: CartItem, w: seq<CartItem>)
    requires Distinct(w) && forall k :: 0 <= k < |w| ==> w[k].product != x.product
    ensures Distinct([x] + w)
  {
    var r := [x] + w;
    forall i, j | 0 <= i < j < |r| ensures r[i].product != r[j].product {
      if i == 0 {
        assert r[j] == w[j - 1];
      } else {
        assert r[i] == w[i - 1] && r[j] == w[j - 1];
      }
    }
  }

  // ----------------------------------------------------- lemmas: ratings

  lemma {:induction false} SumNatConcat(a: seq<nat>, b: seq<nat>)
    ensures SumNat(a + b) == SumNat(a) + SumNat(b)
  {
    if a != [] {
      SumNatConcat(a[1..], b);
      assert (a + b)[1..] == a[1..] + b;
    } else {
      assert a + b == b;
    }
  }

  lemma {:induction false} SumNatBounds(rs: seq<nat>)
    requires forall i :: 0 <= i < |rs| ==> 1 <= rs[i] <= 5
    ensures |rs| <= SumNat(rs) <= 5 * |rs|
  {
    if rs != [] {
      assert forall i :: 0 <= i < |rs[1..]| ==> rs[1..][i] == rs[i + 1];
      SumNatBounds(rs[1..]);
    }
  }

  lemma MeanBetween(s: real, n: real)
    requires n > 0.0 && n <= s <= 5.0 * n
    ensures 1.0 <= s / n <= 5.0
  {
    var m := s / n;
    assert m * n == s;
  }

  /** The mean of ratings between 1 and 5 lies between 1 and 5; it is absent exactly when there are none. */
  lemma MeanRatingInRange(rs: seq<nat>)
    requires forall i :: 0 <= i < |rs| ==> 1 <= rs[i] <= 5
    ensures MeanRating(rs).None? <==> rs == []
    ensures MeanRating(rs).Some? ==> 1.0 <= MeanRating(rs).value <= 5.0
  {
    if rs != [] {
      SumNatBounds(rs);
      var n := |rs| as real;
      var s := SumNat(rs) as real;
      assert n <= s <= 5.0 * n;
      MeanBetween(s, n);
      assert MeanRating(rs) == Some(s / n);
    }
  }

  lemma {:induction false} LineRatingsConcat(a: seq<OrderItem>, b: seq<OrderItem>, pid: ProductId)
    ensures LineRatings(a + b, pid) == LineRatings(a, pid) + LineRatings(b, pid)
  {
    if a != [] {
      LineRatingsConcat(a[1..], b, pid);
      assert (a + b)[1..] == a[1..] + b;
    } else {
      assert a + b == b;
    }
  }

  lemma {:induction false} RatingsOfConcat(a: seq<Order>, b: seq<Order>, pid: ProductId)
    ensures RatingsOf(a + b, pid) == RatingsOf(a, pid) + RatingsOf(b, pid)
  {
    if a != [] {
      RatingsOfConcat(a[1..], b, pid);
      assert (a + b)[1..] == a[1..] + b;
    } else {
      assert a + b == b;
    }
  }

  lemma {:induction false} LineRatingsUnrated(lines: seq<OrderItem>, pid: ProductId)
    requires forall j :: 0 <= j < |lines| ==> lines[j].rating.None?
    ensures LineRatings(lines, pid) == []
  {
    if lines != [] {
      LineRatingsUnrated(lines[1..], pid);
    }
  }

  /** A new order whose lines are unrated leaves every product's ratings as they were. */
  lemma RatingsOfAppendUnrated(orders: seq<Order>, o: Order, pid: ProductId)
    requires forall j :: 0 <= j < |o.lines| ==> o.lines[j].rating.None?
    ensures RatingsOf(orders + [o], pid) == RatingsOf(orders, pid)
  {
    RatingsOfConcat(orders, [o], pid);
    LineRatingsUnrated(o.lines, pid);
    assert RatingsOf([o], pid) == LineRatings(o.lines, pid) + RatingsOf([], pid);
  }

  /**
   * Rating an unrated line adds that one rating to the pool of its product and
   * leaves the pool of every other product unchanged.
   */
  lemma LineRatingsRate(lines: seq<OrderItem>, j: nat, x: OrderItem, r: nat, pid: ProductId)
    requires j < |lines| && lines[j].rating.None?
    requires x.product == lines[j].product && x.rating == Some(r)
    ensures var rated := lines[j := x];
            if pid == lines[j].product
            then |LineRatings(rated, pid)| == |LineRatings(lines, pid)| + 1 &&
                 SumNat(LineRatings(rated, pid)) == SumNat(LineRatings(lines, pid)) + r
            else LineRatings(rated, pid) == LineRatings(lines, pid)
  {
    var rated := lines[j := x];
    SplitAt(lines, j, x);
    LineRatingsConcat(lines[..j] + [lines[j]], lines[j + 1..], pid);
    LineRatingsConcat(lines[..j], [lines[j]], pid);
    LineRatingsConcat(lines[..j] + [x], lines[j + 1..], pid);
    LineRatingsConcat(lines[..j], [x], pid);
    assert LineRatings([lines[j]], pid) == [] + LineRatings([], pid);
    assert LineRatings([x], pid) == (if pid == x.product then [r] else []) + LineRatings([], pid);
    if pid == lines[j].product {
      var a := LineRatings(lines[..j], pid);
      var b := LineRatings(lines[j + 1..], pid);
      assert LineRatings(rated, pid) == a + [r] + b;
      assert LineRatings(lines, pid) == a + b;
      SumNatConcat(a + [r], b);
      SumNatConcat(a, [r]);
      SumNatConcat(a, b);
    }
  }

  lemma RatingsOfRate(orders: seq<Order>, k: nat, j: nat, x: OrderItem, r: nat, pid: ProductId)
    requires k < |orders| && j < |orders[k].lines| && orders[k].lines[j].rating.None?
    requires x.product == orders[k].lines[j].product && x.rating == Some(r)
    ensures var o := orders[k];
            var rated := orders[k := o.(lines := o.lines[j := x])];
            if pid == o.lines[j].product
            then |RatingsOf(rated, pid)| == |RatingsOf(orders, pid)| + 1 &&
                 SumNat(RatingsOf(rated, pid)) == SumNat(RatingsOf(orders, pid)) + r
            else RatingsOf(rated, pid) == RatingsOf(orders, pid)
  {
    var o := orders[k];
    var o' := o.(lines := o.lines[j := x]);
    var rated := orders[k := o'];
    SplitAt(orders, k, o');
    RatingsOfConcat(orders[..k] + [o], orders[k + 1..], pid);
    RatingsOfConcat(orders[..k], [o], pid);
    RatingsOfConcat(orders[..k] + [o'], orders[k + 1..], pid);
    RatingsOfConcat(orders[..k], [o'], pid);
    assert RatingsOf([o], pid) == LineRatings(o.lines, pid) + RatingsOf([], pid);
    assert RatingsOf([o'], pid) == LineRatings(o'.lines, pid) + RatingsOf([], pid);
    LineRatingsRate(o.lines, j, x, r, pid);
    if pid == o.lines[j].product {
      var a := RatingsOf(orders[..k], pid);
      var b := RatingsOf(orders[k + 1..], pid);
      assert RatingsOf(rated, pid) == a + LineRatings(o'.lines, pid) + b;
      assert RatingsOf(orders, pid) == a + LineRatings(o.lines, pid) + b;
      SumNatConcat(a + LineRatings(o'.lines, pid), b);
      SumNatConcat(a, LineRatings(o'.lines, pid));
      SumNatConcat(a + LineRatings(o.lines, pid), b);
      SumNatConcat(a, LineRatings(o.lines, pid));
    }
  }

  /** Every rating in the pool of a product came from a line holding a rating in range. */
  lemma {:induction false} RatingsOfInRange(orders: seq<Order>, pid: ProductId)
    requires forall k :: 0 <= k < |orders| ==> OrderAgrees(orders[k])
    ensures forall i :: 0 <= i < |RatingsOf(orders, pid)| ==> 1 <= RatingsOf(orders, pid)[i] <= 5
  {
    if orders != [] {
      LineRatingsInRange(orders[0].lines, pid);
      assert forall k :: 0 <= k < |orders[1..]| ==> orders[1..][k] == orders[k + 1];
      RatingsOfInRange(orders[1..], pid);
    }
  }

  lemma {:induction false} LineRatingsInRange(lines: seq<OrderItem>, pid: ProductId)
    requires forall j :: 0 <= j < |lines| ==> RatingInRange(lines[j].rating)
    ensures forall i :: 0 <= i < |LineRatings(lines, pid)| ==> 1 <= LineRatings(lines, pid)[i] <= 5
  {
    if lines != [] {
      assert RatingInRange(lines[0].rating);
      assert forall j :: 0 <= j < |lines[1..]| ==> lines[1..][j] == lines[j + 1];
      LineRatingsInRange(lines[1..], pid);
    }
  }

  // ---------------------------------------------- lemmas: Clothes.save, Cart.save

  /**
   * `Clothes.save` marks a product out of stock exactly when its stock is 0,
   * leaves its other listed fields alone, gives it no rating exactly when no
   * order line rates it and otherwise a rating in 1..5 (when the stored
   * ratings are in range), and a second save changes nothing.
   */
  lemma SavedClothesRules(p: Product, pid: ProductId, orders: seq<Order>)
    requires forall k :: 0 <= k < |orders| ==> OrderAgrees(orders[k])
    ensures var s := SavedClothes(p, pid, orders);
            && (s.status == OutOfStock <==> p.stock == 0)
            && s.name == p.name && s.price == p.price && s.stock == p.stock
            && (s.rating.None? <==> RatingsOf(orders, pid) == [])
            && (s.rating.Some? ==> 1.0 <= s.rating.value <= 5.0)
            && SavedClothes(s, pid, orders) == s
  {
    RatingsOfInRange(orders, pid);
    MeanRatingInRange(RatingsOf(orders, pid));
  }

  /**
   * After `CartItem.save` of each line, `Cart.save` leaves a cart that agrees
   * with the catalog: its count is the number of lines and its total the sum
   * of quantity times price over them, both 0 for an empty cart; its lines and
   * products are untouched, and a second save changes nothing.
   */
  lemma SavedCartRules(c: Cart, catalog: map<ProductId, Product>)
    requires Distinct(c.lines)
    requires forall i :: 0 <= i < |c.lines| ==> c.lines[i].product in catalog
    ensures var lines := seq(|c.lines|, i requires 0 <= i < |c.lines| =>
                               SavedCartItem(c.lines[i], catalog[c.lines[i].product].price));
            var s := SavedCart(c.(lines := lines));
            && CartAgrees(s, catalog)
            && s.quantity == |c.lines|
            && s.totalValue == ValueAt(c.lines, catalog)
            && (c.lines == [] ==> s.quantity == 0 && s.totalValue == 0)
            && s.products == c.products
            && SavedCart(s) == s
  {
    var lines := seq(|c.lines|, i requires 0 <= i < |c.lines| =>
                       SavedCartItem(c.lines[i], catalog[c.lines[i].product].price));
    CartValueReconciles(lines, catalog);
    ValueAtSameQuantities(lines, c.lines, catalog);
  }

  /** The live value of lines depends only on their products and quantities. */
  lemma {:induction false} ValueAtSameQuantities(a: seq<CartItem>, b: seq<CartItem>, catalog: map<ProductId, Product>)
    requires |a| == |b|
    requires forall i :: 0 <= i < |a| ==> a[i].product == b[i].product && a[i].quantity == b[i].quantity
    ensures ValueAt(a, catalog) == ValueAt(b, catalog)
  {
    if a != [] {
      assert forall i :: 0 <= i < |a[1..]| ==> a[1..][i] == a[i + 1] && b[1..][i] == b[i + 1];
      ValueAtSameQuantities(a[1..], b[1..], catalog);
    }
  }

  // ------------------------------------------------------ lemmas: Order.save

  /**
   * `Order.save` sets a tracking number when there is none and never changes one
   * that is set, so a second save (with any draws) changes nothing.
   */
  lemma SavedOrderSettles(o: Order, username: string, draws: seq<Tracking.Digit>, later: seq<Tracking.Digit>)
    requires |draws| == Tracking.TrackingLength && |later| == Tracking.TrackingLength
    ensures o.tracking == "" ==> Tracking.IsTrackingNumber(SavedOrder(o, username, draws).tracking)
    ensures o.tracking != "" ==> SavedOrder(o, username, draws).tracking == o.tracking
    ensures SavedOrder(o, username, draws).recipient == if o.recipient == "" then username else o.recipient
    ensures SavedOrder(SavedOrder(o, username, draws), username, later) == SavedOrder(o, username, draws)
  {
  }
}
