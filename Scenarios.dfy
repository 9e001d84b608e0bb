/**
 * Whole-store call sequences of the services on a fresh database, following the
 * repository's own service tests: the merged cart line, the repeated
 * getOrCreateMyCart, and the 950 checkout.
 */
module Scenarios {
  import opened Domain
  import Text
  import opened Repositories
  import opened CartMapper
  import CartService
  import OrderService
  import ProductService

  /** A fresh store holding one category and one product of `seller` at `price`. */
  method StoreWithProduct(seller: Id, price: int) returns (db: Store, product: Product)
    ensures fresh(db) && db.Valid()
    ensures product.id in db.products && db.products[product.id] == product
    ensures product.price == Some(price) && product.status == "DRAFT" && product.seller == seller
    ensures product.category in db.categories
    ensures db.carts == map[] && db.lines == map[]
  {
    db := new Store();
    var cat := db.SaveNewCategory(Category(0, "Cat", None));
    var p := ProductService.Create(db, seller, ProductDto(cat.id, "P", "", Some(price)));
    product := p.value;
  }

  /** A DRAFT product may be put in a cart. */
  lemma DraftIsNotArchived()
    ensures !CartService.IsArchived("DRAFT")
  {
    assert |Text.ToUpper("DRAFT")| == 5;
  }

  /** Adding 2 and then 3 of one product leaves a single line of 5 (CartServiceTest). */
  method AddTwiceMerges() returns (lines: map<Id, CartItem>)
    ensures |lines| == 1
    ensures forall p :: p in lines ==> lines[p].quantity == Some(5) && lines[p].priceSnapshot == Some(200)
  {
    var db, product := StoreWithProduct(1, 200);
    DraftIsNotArchived();
    var r1 := CartService.AddItem(db, 2, CartItemDto(product.id, Some(2)));
    var c := r1.value.id;
    assert db.LinesOf(c) == map[product.id := CartItem(c, product.id, Some(2), Some(200))];
    var r2 := CartService.AddItem(db, 2, CartItemDto(product.id, Some(3)));
    assert r2.value.id == c;
    lines := db.LinesOf(c);
    assert lines == map[product.id := CartItem(c, product.id, Some(5), Some(200))];
  }

  /** getOrCreateMyCart twice gives the same cart and inserts one cart only. */
  method SameCartTwice() returns (first: Cart, second: Cart, carts: nat)
    ensures first == second
    ensures carts == 1
  {
    var db := new Store();
    first := CartService.GetOrCreateMyCart(db, 5);
    second := CartService.GetOrCreateMyCart(db, 5);
    assert db.carts.Keys == {5};
    carts := |db.carts|;
  }

  /** The cart of the order test: P1 at 100 x 2 and P2 at 250 x 3. */
  method CartOfTwo(buyer: Id) returns (db: Store, c: Id, p1: Id, p2: Id)
    ensures fresh(db) && db.Valid()
    ensures buyer in db.carts && db.carts[buyer].id == c && p1 != p2
    ensures db.LinesOf(c) == map[p1 := CartItem(c, p1, Some(2), Some(100)), p2 := CartItem(c, p2, Some(3), Some(250))]
  {
    var first;
    db, first := StoreWithProduct(1, 100);
    var second := ProductService.Create(db, 1, ProductDto(first.category, "P2", "", Some(250)));
    p1, p2 := first.id, second.value.id;
    DraftIsNotArchived();
    var r1 := CartService.AddItem(db, buyer, CartItemDto(p1, Some(2)));
    c := r1.value.id;
    assert db.LinesOf(c) == map[p1 := CartItem(c, p1, Some(2), Some(100))];
    var r2 := CartService.AddItem(db, buyer, CartItemDto(p2, Some(3)));
    assert r2.value.id == c;
  }

  /** 100 x 2 + 250 x 3 = 950. */
  lemma NineFifty(c: Id, p1: Id, p2: Id)
    requires p1 != p2
    ensures LinesTotal(map[p1 := CartItem(c, p1, Some(2), Some(100)), p2 := CartItem(c, p2, Some(3), Some(250))]) == 950
  {
    var one := map[p1 := CartItem(c, p1, Some(2), Some(100))];
    LinesTotalInsert(map[], p1, CartItem(c, p1, Some(2), Some(100)));
    assert map[][p1 := CartItem(c, p1, Some(2), Some(100))] == one;
    LinesTotalInsert(one, p2, CartItem(c, p2, Some(3), Some(250)));
  }

  /** That cart checks out as one CREATED order of two items worth 950, and the emptied cart is kept (OrderServiceTest). */
  method CheckoutNineFifty() returns (order: Order, cartKept: bool, linesLeft: nat)
    ensures order.status == "CREATED" && order.buyer == 9
    ensures order.totalAmount == 950
    ensures |order.items| == 2
    ensures cartKept && linesLeft == 0
  {
    var db, c, p1, p2 := CartOfTwo(9);
    NineFifty(c, p1, p2);
    var r := OrderService.Checkout(db, 9);
    order := r.value;
    cartKept := 9 in db.carts;
    linesLeft := |db.LinesOf(c)|;
  }
}
