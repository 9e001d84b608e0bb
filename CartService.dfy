/**
 * The buyer's cart: one cart per buyer, created on first use, whose lines
 * are keyed by product. Every call runs in one transaction, so a call that
 * fails leaves the store as it was.
 */
module CartService {
  import opened Domain
  import opened Text
  import opened Repositories

  /** The quantity addItem adds: a missing or non-positive request counts as one. */
  function AddQuantity(requested: Option<int>): (n: int)
    ensures n >= 1
    ensures requested.Some? && requested.value > 0 ==> n == requested.value
    ensures requested.None? || requested.value <= 0 ==> n == 1
  {
    if requested.None? || requested.value <= 0 then 1 else requested.value
  }

  /** The quantity setQuantity asks for: a missing request counts as one. */
  function SetQuantityOf(requested: Option<int>): int {
    if requested.None? then 1 else requested.value
  }

  predicate IsArchived(status: string) {
    EqualsIgnoreCase("ARCHIVED", status)
  }

  /** The buyer's cart, inserting a new empty one when the buyer has none. */
  method GetOrCreateMyCart(db: Store, buyer: Id) returns (cart: Cart)
    requires db.Valid()
    modifies db`carts, db`nextCartId
    ensures db.Valid()
    ensures buyer in db.carts && db.carts[buyer] == cart
    ensures buyer in old(db.carts) ==>
              cart == old(db.carts[buyer]) && db.carts == old(db.carts) && db.nextCartId == old(db.nextCartId)
    ensures buyer !in old(db.carts) ==>
              && cart == Cart(old(db.nextCartId), buyer)
              && db.carts == old(db.carts)[buyer := cart]
              && db.nextCartId == old(db.nextCartId) + 1
              && db.LinesOf(cart.id) == map[]
  {
    if buyer in db.carts {
      cart := db.carts[buyer];
    } else {
      cart := Cart(db.nextCartId, buyer);
      db.carts := db.carts[buyer := cart];
      db.nextCartId := db.nextCartId + 1;
    }
  }

  /** getMyCart does exactly what getOrCreateMyCart does. */
  method GetMyCart(db: Store, buyer: Id) returns (cart: Cart)
    requires db.Valid()
    modifies db`carts, db`nextCartId
    ensures db.Valid()
    ensures buyer in db.carts && db.carts[buyer] == cart
    ensures buyer in old(db.carts) ==>
              cart == old(db.carts[buyer]) && db.carts == old(db.carts) && db.nextCartId == old(db.nextCartId)
    ensures buyer !in old(db.carts) ==>
              && cart == Cart(old(db.nextCartId), buyer)
              && db.carts == old(db.carts)[buyer := cart]
              && db.nextCartId == old(db.nextCartId) + 1
              && db.LinesOf(cart.id) == map[]
  {
    cart := GetOrCreateMyCart(db, buyer);
  }

  /**
   * Adds a product to the buyer's cart. The product must exist and not be
   * archived; the quantity is added onto the product's line, which is created
   * with the product's current price (0 when it has none) as its snapshot.
   */
  method AddItem(db: Store, buyer: Id, dto: CartItemDto) returns (r: Result<Cart>)
    requires db.Valid()
    modifies db`carts, db`nextCartId, db`lines
    ensures db.Valid()
    ensures dto.productId !in old(db.products) ==> r == Failure(IllegalArgument(ProductNotFound))
    ensures dto.productId in old(db.products) && IsArchived(old(db.products[dto.productId].status)) ==>
              r == Failure(IllegalArgument(ProductArchived))
    ensures r.Success? <==> dto.productId in old(db.products) && !IsArchived(old(db.products[dto.productId].status))
    ensures r.Failure? ==> db.carts == old(db.carts) && db.lines == old(db.lines) && db.nextCartId == old(db.nextCartId)
    ensures r.Success? ==>
              && buyer in db.carts && r.value == db.carts[buyer]
              && (buyer in old(db.carts) ==> db.carts == old(db.carts) && db.nextCartId == old(db.nextCartId))
              && (buyer !in old(db.carts) ==>
                    r.value.id == old(db.nextCartId) && db.carts == old(db.carts)[buyer := r.value]
                    && db.nextCartId == old(db.nextCartId) + 1)
    ensures r.Success? ==>
              var c, p := r.value.id, dto.productId;
              var before, after := old(db.LinesOf(c)), db.LinesOf(c);
              && db.lines == old(db.lines)[c := after]
              && after.Keys == before.Keys + {p}
              && (forall q :: q in before && q != p ==> after[q] == before[q])
              && after[p].cart == c && after[p].product == p
              && after[p].quantity == Some(OrZero(if p in before then before[p].quantity else None) + AddQuantity(dto.quantity))
              && after[p].priceSnapshot == (if p in before then before[p].priceSnapshot
                                            else Some(OrZero(old(db.products[p].price))))
  {
    // The transaction rolls back a cart created before a failed product
    // check, so the product is checked first.
    if dto.productId !in db.products {
      return Failure(IllegalArgument(ProductNotFound));
    }
    var product := db.products[dto.productId];
    if IsArchived(product.status) {
      return Failure(IllegalArgument(ProductArchived));
    }
    var addQty := if dto.quantity.None? then 1 else dto.quantity.value;
    if addQty <= 0 {
      addQty := 1;
    }

    var cart := GetOrCreateMyCart(db, buyer);
    var items := db.LinesOf(cart.id);
    db.LinesOfValid(cart.id);
    var item := if product.id in items then items[product.id]
                else CartItem(cart.id, product.id, Some(0), Some(OrZero(product.price)));
    item := item.(quantity := Some(item.quantity.value + addQty));
    db.lines := db.lines[cart.id := items[product.id := item]];
    r := Success(cart);
  }

  /**
   * Sets the quantity of a product's line: a quantity of 0 or less deletes
   * the line (present or not); a positive quantity overwrites the line's
   * quantity, and fails when there is no such line.
   */
  method SetQuantity(db: Store, buyer: Id, dto: CartItemDto) returns (r: Result<Cart>)
    requires db.Valid()
    modifies db`carts, db`nextCartId, db`lines
    ensures db.Valid()
    ensures SetQuantityOf(dto.quantity) <= 0 ==>
              && r.Success? && buyer in db.carts && r.value == db.carts[buyer]
              && (buyer in old(db.carts) ==> db.carts == old(db.carts) && db.nextCartId == old(db.nextCartId))
              && (buyer !in old(db.carts) ==>
                    r.value.id == old(db.nextCartId) && db.carts == old(db.carts)[buyer := r.value]
                    && db.nextCartId == old(db.nextCartId) + 1)
              && db.lines == old(db.lines)[r.value.id := old(db.LinesOf(r.value.id)) - {dto.productId}]
    ensures SetQuantityOf(dto.quantity) > 0 ==>
              (r.Failure? <==> buyer !in old(db.carts) || dto.productId !in old(db.LinesOf(db.carts[buyer].id)))
    ensures r.Failure? ==>
              && r == Failure(IllegalArgument(CartItemNotFound))
              && db.carts == old(db.carts) && db.lines == old(db.lines) && db.nextCartId == old(db.nextCartId)
    ensures SetQuantityOf(dto.quantity) > 0 && r.Success? ==>
              var c, p := r.value.id, dto.productId;
              && buyer in old(db.carts) && r.value == old(db.carts[buyer])
              && db.carts == old(db.carts) && db.nextCartId == old(db.nextCartId)
              && db.lines == old(db.lines)[c := old(db.LinesOf(c))[p := old(db.LinesOf(c))[p].(quantity := Some(SetQuantityOf(dto.quantity)))]]
  {
    var qty := if dto.quantity.None? then 1 else dto.quantity.value;

    if qty <= 0 {
      var cart := GetOrCreateMyCart(db, buyer);
      var kept := db.LinesOf(cart.id) - {dto.productId};
      db.LinesOfValid(cart.id);
      db.lines := db.lines[cart.id := kept];
      return Success(cart);
    }

    // A cart created here would have no lines, so the lookup below would
    // fail and the transaction would roll the creation back.
    if buyer !in db.carts || dto.productId !in db.LinesOf(db.carts[buyer].id) {
      return Failure(IllegalArgument(CartItemNotFound));
    }
    var cart := db.carts[buyer];
    var items := db.LinesOf(cart.id);
    var item := items[dto.productId];
    var updated := items[dto.productId := item.(quantity := Some(qty))];
    db.LinesOfValid(cart.id);
    db.lines := db.lines[cart.id := updated];
    r := Success(cart);
  }

  /** Deletes the product's line from the buyer's cart, if there is one. */
  method RemoveItem(db: Store, buyer: Id, productId: Id) returns (cart: Cart)
    requires db.Valid()
    modifies db`carts, db`nextCartId, db`lines
    ensures db.Valid()
    ensures buyer in db.carts && db.carts[buyer] == cart
    ensures buyer in old(db.carts) ==>
              cart == old(db.carts[buyer]) && db.carts == old(db.carts) && db.nextCartId == old(db.nextCartId)
    ensures buyer !in old(db.carts) ==>
              && cart == Cart(old(db.nextCartId), buyer)
              && db.carts == old(db.carts)[buyer := cart]
              && db.nextCartId == old(db.nextCartId) + 1
    ensures db.lines == old(db.lines)[cart.id := old(db.LinesOf(cart.id)) - {productId}]
  {
    cart := GetOrCreateMyCart(db, buyer);
    db.LinesOfValid(cart.id);
    db.lines := db.lines[cart.id := db.LinesOf(cart.id) - {productId}];
  }

  /** Deletes every line of the buyer's cart and keeps the cart. */
  method Clear(db: Store, buyer: Id) returns (cart: Cart)
    requires db.Valid()
    modifies db`carts, db`nextCartId, db`lines
    ensures db.Valid()
    ensures buyer in db.carts && db.carts[buyer] == cart
    ensures buyer in old(db.carts) ==>
              cart == old(db.carts[buyer]) && db.carts == old(db.carts) && db.nextCartId == old(db.nextCartId)
    ensures buyer !in old(db.carts) ==>
              && cart == Cart(old(db.nextCartId), buyer)
              && db.carts == old(db.carts)[buyer := cart]
              && db.nextCartId == old(db.nextCartId) + 1
    ensures db.lines == old(db.lines) - {cart.id} && db.LinesOf(cart.id) == map[]
  {
    cart := GetOrCreateMyCart(db, buyer);
    db.DeleteAllByCart(cart.id);
  }
}
