/**
 * Orders: checkout turns the buyer's cart into an order and empties the
 * cart; buyers read their own orders; an admin sets an order's status to any
 * of the five legal statuses (there is no transition graph).
 */
module OrderService {
  import opened Domain
  import opened Text
  import opened Repositories
  import opened CartItemMapper
  import opened CartMapper

  /** The order item checkout makes from a cart line: nulls read as 0, seller taken from the product. */
  function FrozenLine(line: CartItem, seller: Id): OrderItem {
    OrderItem(line.product, seller, OrZero(line.quantity), OrZero(line.priceSnapshot))
  }

  /** `item` is the frozen copy of its product's line in `lines`, with the seller taken from `products`. */
  predicate FrozenFrom(item: OrderItem, lines: map<Id, CartItem>, products: map<Id, Product>) {
    item.product in lines && item.product in products
    && item == FrozenLine(lines[item.product], products[item.product].seller)
  }

  /** `items` are the frozen copies of all of `lines`, one per line. */
  predicate FrozenCart(items: seq<OrderItem>, lines: map<Id, CartItem>, products: map<Id, Product>) {
    && |items| == |lines|
    && (forall i, j :: 0 <= i < j < |items| ==> items[i].product != items[j].product)
    && (forall i :: 0 <= i < |items| ==> FrozenFrom(items[i], lines, products))
  }

  /** An order item is worth exactly the subtotal its cart line showed. */
  lemma FrozenLineAmount(line: CartItem, seller: Id)
    ensures FrozenLine(line, seller).priceSnapshot * FrozenLine(line, seller).quantity == Subtotal(line)
  {
    CheckoutAmountIsSubtotal(line);
  }

  lemma ProductsOfAppend(items: seq<OrderItem>, item: OrderItem)
    ensures ProductsOf(items + [item]) == ProductsOf(items) + {item.product}
  {
    var s := items + [item];
    assert s[|items|] == item;
    assert forall i :: 0 <= i < |items| ==> s[i] == items[i];
  }

  /**
   * The status updateStatusByAdmin stores: the request in upper case, or the
   * current status when the request is null, provided it is one of the five
   * legal statuses.
   */
  function NormalizeOrderStatus(requested: Option<string>, current: string): (r: Result<string>)
    ensures r.Success? ==> r.value in OrderStatuses
    ensures r.Failure? ==> r.error == IllegalArgument(InvalidStatus)
    ensures requested.Some? ==> (r.Success? <==> ToUpper(requested.value) in OrderStatuses)
    ensures requested.Some? && r.Success? ==> EqualsIgnoreCase(r.value, requested.value)
    ensures requested.None? ==> (r.Success? <==> current in OrderStatuses)
    ensures requested.None? && r.Success? ==> r.value == current
  {
    var st := if requested.None? then current else ToUpper(requested.value);
    if st in OrderStatuses then
      ToUpperIdempotent(if requested.None? then current else requested.value);
      Success(st)
    else
      Failure(IllegalArgument(InvalidStatus))
  }

  /** Requests that differ only in case are treated alike. */
  lemma StatusRequestIgnoresCase(a: string, b: string, current: string)
    requires EqualsIgnoreCase(a, b)
    ensures NormalizeOrderStatus(Some(a), current) == NormalizeOrderStatus(Some(b), current)
  {
  }

  /** "paid" becomes PAID; "WRONG_STATUS" is refused. */
  lemma StatusExamples(current: string)
    ensures NormalizeOrderStatus(Some("paid"), current) == Success("PAID")
    ensures NormalizeOrderStatus(Some("WRONG_STATUS"), current) == Failure(IllegalArgument(InvalidStatus))
  {
    assert ToUpper("paid") == "PAID";
    assert ToUpper("WRONG_STATUS") == "WRONG_STATUS";
  }

  /**
   * The loop of checkout: one frozen item per cart line, no product twice,
   * and a total equal to the items' sum (FrozenTotal shows it is also the
   * cart's displayed total).
   */
  method FreezeLines(db: Store, lines: map<Id, CartItem>) returns (items: seq<OrderItem>, total: int)
    requires forall p :: p in lines ==> p in db.products && lines[p].product == p
    ensures FrozenCart(items, lines, db.products)
    ensures total == ItemsTotal(items)
  {
    items, total := [], 0;
    var rest := lines;
    while rest != map[]
      invariant rest.Keys <= lines.Keys
      invariant forall p :: p in rest ==> rest[p] == lines[p]
      invariant |items| + |rest| == |lines|
      invariant forall i :: 0 <= i < |items| ==> items[i].product !in rest
      invariant forall i :: 0 <= i < |items| ==>
                  FrozenFrom(items[i], lines, db.products)
      invariant forall i, j :: 0 <= i < j < |items| ==> items[i].product != items[j].product
      invariant total == ItemsTotal(items)
      decreases |rest|
    {
      HasKey(rest);
      var p :| p in rest;
      var ci := rest[p];
      var oi := OrderItem(ci.product, db.products[ci.product].seller, OrZero(ci.quantity), OrZero(ci.priceSnapshot));
      FreezeStep(items, oi, total);
      assert (rest - {p}).Keys == rest.Keys - {p};
      assert ci == lines[p] && FrozenFrom(oi, lines, db.products);
      var next := items + [oi];
      assert forall i :: 0 <= i < |items| ==> next[i] == items[i];
      assert next[|items|] == oi;
      items := next;
      total := total + oi.priceSnapshot * oi.quantity;
      rest := rest - {p};
    }
  }

  /**
   * Frozen copies of all of a cart's lines, each once, cover exactly the
   * cart's products and add up to the cart's total.
   */
  lemma {:induction false} FrozenTotal(items: seq<OrderItem>, lines: map<Id, CartItem>, products: map<Id, Product>)
    requires FrozenCart(items, lines, products)
    ensures ProductsOf(items) == lines.Keys
    ensures ItemsTotal(items) == LinesTotal(lines)
  {
    if items == [] {
      assert lines == map[];
    } else {
      var n := |items| - 1;
      var last, p := items[n], items[n].product;
      assert FrozenFrom(last, lines, products);
      var fewer := lines - {p};
      assert fewer.Keys == lines.Keys - {p};
      forall i | 0 <= i < n
        ensures FrozenFrom(items[..n][i], fewer, products)
      {
        assert FrozenFrom(items[i], lines, products);
        assert items[i].product != p;
      }
      FrozenTotal(items[..n], fewer, products);
      LinesTotalRemove(lines, p);
      FrozenLineAmount(lines[p], products[p].seller);
      assert items[..n] + [last] == items;
      ProductsOfAppend(items[..n], last);
    }
  }

  /** Appending an item adds its product and its amount. */
  lemma FreezeStep(items: seq<OrderItem>, oi: OrderItem, total: int)
    requires total == ItemsTotal(items)
    ensures ItemsTotal(items + [oi]) == total + oi.priceSnapshot * oi.quantity
  {
    assert (items + [oi])[..|items|] == items;
  }

  /**
   * Turns the buyer's cart into an order with status CREATED: one item per
   * cart line, each copying the line's product, price snapshot and quantity
   * (null read as 0) with the product's current seller, and a total equal to
   * the cart's total. The cart's lines are then deleted; the cart is kept.
   * A missing or empty cart is refused and nothing changes.
   */
  method Checkout(db: Store, buyer: Id) returns (r: Result<Order>)
    requires db.Valid()
    modifies db`orders, db`nextOrderId, db`lines
    ensures db.Valid()
    ensures r.Failure? <==> buyer !in db.carts || old(db.LinesOf(db.carts[buyer].id)) == map[]
    ensures r.Failure? ==>
              r == Failure(IllegalArgument(CartEmpty))
              && db.orders == old(db.orders) && db.lines == old(db.lines) && db.nextOrderId == old(db.nextOrderId)
    ensures db.carts == old(db.carts)
    ensures r.Success? ==>
              && r.value.id == old(db.nextOrderId) && r.value.id !in old(db.orders)
              && db.orders == old(db.orders)[r.value.id := r.value] && db.nextOrderId == old(db.nextOrderId) + 1
              && r.value.buyer == buyer && r.value.status == "CREATED"
    ensures r.Success? ==>
              var lines := old(db.LinesOf(db.carts[buyer].id));
              && FrozenCart(r.value.items, lines, db.products)
              && ProductsOf(r.value.items) == lines.Keys
              && r.value.totalAmount == LinesTotal(lines)
    ensures r.Success? ==> db.lines == old(db.lines) - {db.carts[buyer].id} && db.LinesOf(db.carts[buyer].id) == map[]
  {
    if buyer !in db.carts {
      return Failure(IllegalArgument(CartEmpty));
    }
    var cart := db.carts[buyer];
    var lines := db.LinesOf(cart.id);
    if lines == map[] {
      return Failure(IllegalArgument(CartEmpty));
    }
    db.LinesOfValid(cart.id);
    var items, total := FreezeLines(db, lines);
    FrozenTotal(items, lines, db.products);
    assert |items| > 0;

    var order := Order(0, buyer, "CREATED", items, total);
    assert WellFormedOrder(order);
    var saved := db.SaveNewOrder(order);
    db.DeleteAllByCart(cart.id);
    r := Success(saved);
  }

  /** The buyer's orders (OrderRepo.findAllByBuyer_Id): each of them exactly once. */
  method MyOrders(db: Store, buyer: Id) returns (rows: seq<Order>)
    requires db.Valid()
    ensures forall i :: 0 <= i < |rows| ==> rows[i].id in db.orders && db.orders[rows[i].id] == rows[i] && rows[i].buyer == buyer
    ensures forall o :: o in db.orders && db.orders[o].buyer == buyer ==> db.orders[o] in rows
    ensures forall i, j :: 0 <= i < j < |rows| ==> rows[i] != rows[j]
  {
    ghost var ids;
    rows, ids := Select(db.orders, (o: Order) => o.buyer == buyer);
    forall o | o in db.orders && db.orders[o].buyer == buyer
      ensures db.orders[o] in rows
    {
      var i :| 0 <= i < |ids| && ids[i] == o;
      assert rows[i] == db.orders[o];
    }
    forall i, j | 0 <= i < j < |rows|
      ensures rows[i] != rows[j]
    {
      assert rows[i].id == ids[i] && rows[j].id == ids[j];
    }
  }

  /** A buyer's own order; another buyer's order is refused with AccessDenied. */
  function GetMyOrder(db: Store, caller: Id, orderId: Id): (r: Result<Order>)
    reads db`orders
    ensures orderId !in db.orders ==> r == Failure(IllegalArgument(OrderNotFound))
    ensures orderId in db.orders && db.orders[orderId].buyer != caller ==> r == Failure(AccessDenied(NotYourOrder))
    ensures r.Success? <==> orderId in db.orders && db.orders[orderId].buyer == caller
    ensures r.Success? ==> r.value == db.orders[orderId]
  {
    if orderId !in db.orders then Failure(IllegalArgument(OrderNotFound))
    else if db.orders[orderId].buyer != caller then Failure(AccessDenied(NotYourOrder))
    else Success(db.orders[orderId])
  }

  /** Any order by id, for an admin. */
  function GetAnyOrder(db: Store, orderId: Id): (r: Result<Order>)
    reads db`orders
    ensures r.Success? <==> orderId in db.orders
    ensures r.Success? ==> r.value == db.orders[orderId]
    ensures r.Failure? ==> r == Failure(IllegalArgument(OrderNotFound))
  {
    if orderId in db.orders then Success(db.orders[orderId]) else Failure(IllegalArgument(OrderNotFound))
  }

  /**
   * Sets an order's status: the request upper-cased (or the current status
   * when the request is null) must be one of the five legal statuses. Only
   * the status changes.
   */
  method UpdateStatusByAdmin(db: Store, orderId: Id, status: Option<string>) returns (r: Result<Order>)
    requires db.Valid()
    modifies db`orders
    ensures db.Valid()
    ensures orderId !in old(db.orders) ==> r == Failure(IllegalArgument(OrderNotFound))
    ensures orderId in old(db.orders) ==>
              var o := old(db.orders[orderId]);
              var n := NormalizeOrderStatus(status, o.status);
              && (n.Failure? ==> r == Failure(IllegalArgument(InvalidStatus)))
              && (n.Success? ==> r == Success(o.(status := n.value)))
    ensures orderId in old(db.orders) && status.None? ==> r == Success(old(db.orders[orderId]))
    ensures r.Failure? ==> db.orders == old(db.orders)
    ensures r.Success? ==> db.orders == old(db.orders)[orderId := r.value] && r.value.status in OrderStatuses
  {
    if orderId !in db.orders {
      return Failure(IllegalArgument(OrderNotFound));
    }
    var order := db.orders[orderId];
    var st := NormalizeOrderStatus(status, order.status);
    if st.Failure? {
      return Failure(IllegalArgument(InvalidStatus));
    }
    order := order.(status := st.value);
    db.orders := db.orders[orderId := order];
    r := Success(order);
  }
}
