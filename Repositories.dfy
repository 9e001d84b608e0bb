/**
 * The persistent store behind the services: one map per table, keyed the way
 * the repositories look rows up, with the identity counters the database
 * would use for new rows. The derived queries the services call
 * (findByIdAndSeller_Id, existsByNameIgnoreCase..., findAllBy...) are the
 * functions and the Select method at the end.
 */
module Repositories {
  import opened Domain
  import opened Text

  /** A cart line as the cart service writes it: quantity at least 1, price snapshot present. */
  predicate ValidLine(cart: Id, product: Id, item: CartItem) {
    && item.cart == cart
    && item.product == product
    && item.quantity.Some? && item.quantity.value >= 1
    && item.priceSnapshot.Some?
  }

  /** What every stored order satisfies: a legal status, at least one item, and a total equal to its items' sum. */
  predicate WellFormedOrder(o: Order) {
    && o.status in OrderStatuses
    && |o.items| > 0
    && o.totalAmount == ItemsTotal(o.items)
  }

  class Store {
    var products: map<Id, Product>
    var inventories: map<Id, Inventory>              // keyed by product id (findByProduct_Id)
    var categories: map<Id, Category>
    var carts: map<Id, Cart>                         // keyed by buyer id (findByBuyer_Id)
    var lines: map<Id, map<Id, CartItem>>            // cart id -> product id -> line
    var orders: map<Id, Order>
    var nextProductId: nat
    var nextInventoryId: nat
    var nextCategoryId: nat
    var nextCartId: nat
    var nextOrderId: nat

    ghost predicate ProductsValid()
      reads this`products, this`nextProductId
    {
      forall p :: p in products ==>
        products[p].id == p && p < nextProductId && products[p].status in ProductStatuses
    }

    ghost predicate InventoriesValid()
      reads this`inventories, this`products, this`nextInventoryId
    {
      && (forall p :: p in inventories ==>
            p in products && inventories[p].product == p && inventories[p].id < nextInventoryId)
      && (forall p, q :: p in inventories && q in inventories && inventories[p].id == inventories[q].id ==> p == q)
    }

    ghost predicate CategoriesValid()
      reads this`categories, this`nextCategoryId
    {
      forall c :: c in categories ==> categories[c].id == c && c < nextCategoryId
    }

    /** At most one cart per buyer, cart ids distinct, and no lines under an id not yet given out. */
    ghost predicate CartsValid()
      reads this`carts, this`lines, this`nextCartId
    {
      && (forall b :: b in carts ==> carts[b].buyer == b && carts[b].id < nextCartId)
      && (forall b1, b2 :: b1 in carts && b2 in carts && carts[b1].id == carts[b2].id ==> b1 == b2)
      && (forall c :: c in lines ==> c < nextCartId)
    }

    /** The lines of cart `cart` are valid and refer to existing products. */
    ghost predicate CartLinesValid(cart: Id, items: map<Id, CartItem>)
      reads this`products
    {
      forall p :: p in items ==> ValidLine(cart, p, items[p]) && p in products
    }

    /** Every cart line is valid and refers to an existing product. */
    ghost predicate LinesValid()
      reads this`lines, this`products
    {
      forall c :: c in lines ==> CartLinesValid(c, lines[c])
    }

    ghost predicate OrdersValid()
      reads this`orders, this`nextOrderId
    {
      forall o :: o in orders ==> orders[o].id == o && o < nextOrderId && WellFormedOrder(orders[o])
    }

    ghost predicate Valid()
      reads this
    {
      ProductsValid() && InventoriesValid() && CategoriesValid() && CartsValid() && LinesValid() && OrdersValid()
    }

    /** An empty database. */
    constructor ()
      ensures Valid()
      ensures products == map[] && inventories == map[] && categories == map[]
      ensures carts == map[] && lines == map[] && orders == map[]
    {
      products, inventories, categories := map[], map[], map[];
      carts, lines, orders := map[], map[], map[];
      nextProductId, nextInventoryId, nextCategoryId, nextCartId, nextOrderId := 0, 0, 0, 0, 0;
    }

    /** cartItemRepository rows of one cart, keyed by product. */
    function LinesOf(cart: Id): map<Id, CartItem>
      reads this`lines
    {
      if cart in lines then lines[cart] else map[]
    }

    lemma LinesOfValid(cart: Id)
      requires LinesValid()
      ensures CartLinesValid(cart, LinesOf(cart))
    {
    }

    /** productRepository.save of a new product: the product gets the next id. */
    method SaveNewProduct(p: Product) returns (saved: Product)
      requires Valid()
      requires p.status in ProductStatuses
      modifies this`products, this`nextProductId
      ensures Valid()
      ensures saved == p.(id := old(nextProductId)) && saved.id !in old(products)
      ensures products == old(products)[saved.id := saved] && nextProductId == old(nextProductId) + 1
    {
      saved := p.(id := nextProductId);
      assert saved.id !in products;
      products := products[saved.id := saved];
      nextProductId := nextProductId + 1;
    }

    /** Writing back a changed product (the entity is managed, so the commit saves it). */
    method UpdateProduct(p: Product)
      requires Valid()
      requires p.id in products && p.status in ProductStatuses
      modifies this`products
      ensures Valid()
      ensures products == old(products)[p.id := p]
    {
      products := products[p.id := p];
    }

    /** inventoryRepository.save of a new record for a product that has none: the record gets the next id. */
    method SaveNewInventory(inv: Inventory) returns (saved: Inventory)
      requires Valid()
      requires inv.product in products && inv.product !in inventories
      modifies this`inventories, this`nextInventoryId
      ensures Valid()
      ensures saved == inv.(id := old(nextInventoryId))
      ensures inventories == old(inventories)[inv.product := saved] && nextInventoryId == old(nextInventoryId) + 1
    {
      saved := inv.(id := nextInventoryId);
      inventories := inventories[inv.product := saved];
      nextInventoryId := nextInventoryId + 1;
    }

    /** inventoryRepository.save of an existing record: same id, same product. */
    method UpdateInventory(inv: Inventory)
      requires Valid()
      requires inv.product in inventories && inv.id == inventories[inv.product].id
      modifies this`inventories
      ensures Valid()
      ensures inventories == old(inventories)[inv.product := inv]
    {
      inventories := inventories[inv.product := inv];
    }

    /** categoryRepository.save of a new category: the category gets the next id. */
    method SaveNewCategory(c: Category) returns (saved: Category)
      requires Valid()
      modifies this`categories, this`nextCategoryId
      ensures Valid()
      ensures saved == c.(id := old(nextCategoryId)) && saved.id !in old(categories)
      ensures categories == old(categories)[saved.id := saved] && nextCategoryId == old(nextCategoryId) + 1
    {
      saved := c.(id := nextCategoryId);
      assert saved.id !in categories;
      categories := categories[saved.id := saved];
      nextCategoryId := nextCategoryId + 1;
    }

    /** orderRepository.save of a new order: the order gets the next id. */
    method SaveNewOrder(o: Order) returns (saved: Order)
      requires Valid()
      requires WellFormedOrder(o)
      modifies this`orders, this`nextOrderId
      ensures Valid()
      ensures saved == o.(id := old(nextOrderId)) && saved.id !in old(orders)
      ensures orders == old(orders)[saved.id := saved] && nextOrderId == old(nextOrderId) + 1
    {
      saved := o.(id := nextOrderId);
      assert saved.id !in orders;
      orders := orders[saved.id := saved];
      nextOrderId := nextOrderId + 1;
    }

    /** cartItemRepository.deleteAllByCart_Id: the cart keeps no lines. */
    method DeleteAllByCart(cart: Id)
      requires Valid()
      modifies this`lines
      ensures Valid()
      ensures lines == old(lines) - {cart}
      ensures LinesOf(cart) == map[]
    {
      lines := lines - {cart};
    }

    /** productRepository.findByIdAndSeller_Id: the product, only when it belongs to that seller. */
    function FindByIdAndSeller(id: Id, seller: Id): (r: Option<Product>)
      reads this`products
      ensures r.Some? <==> id in products && products[id].seller == seller
      ensures r.Some? ==> r.value == products[id]
    {
      if id in products && products[id].seller == seller then Some(products[id]) else None
    }

    /**
     * categoryRepository.existsByNameIgnoreCaseAndParentIsNull (parent None)
     * and existsByNameIgnoreCaseAndParent_Id (parent Some).
     */
    predicate ExistsByNameIgnoreCaseAndParent(name: string, parent: Option<Id>)
      reads this`categories
      ensures (exists c :: c in categories && categories[c].parent == parent && categories[c].name == name) ==>
                ExistsByNameIgnoreCaseAndParent(name, parent)
      ensures (forall c :: c in categories ==> categories[c].parent != parent) ==>
                !ExistsByNameIgnoreCaseAndParent(name, parent)
    {
      exists c :: c in categories && categories[c].parent == parent && EqualsIgnoreCase(categories[c].name, name)
    }
  }

  /**
   * A derived findAllBy... query: the rows of a table that satisfy a filter,
   * each exactly once, in no particular order.
   */
  method Select<V>(table: map<Id, V>, keep: V -> bool) returns (rows: seq<V>, ghost ids: seq<Id>)
    ensures |ids| == |rows|
    ensures forall i :: 0 <= i < |rows| ==> ids[i] in table && rows[i] == table[ids[i]] && keep(rows[i])
    ensures forall i, j :: 0 <= i < j < |ids| ==> ids[i] != ids[j]
    ensures forall k :: k in table && keep(table[k]) ==> k in ids
  {
    rows, ids := [], [];
    var rest := table;
    while rest != map[]
      invariant rest.Keys <= table.Keys
      invariant forall k :: k in rest ==> rest[k] == table[k]
      invariant |ids| == |rows|
      invariant forall i :: 0 <= i < |rows| ==> ids[i] in table && ids[i] !in rest && rows[i] == table[ids[i]] && keep(rows[i])
      invariant forall i, j :: 0 <= i < j < |ids| ==> ids[i] != ids[j]
      invariant forall k :: k in table && k !in rest && keep(table[k]) ==> k in ids
      decreases |rest|
    {
      HasKey(rest);
      var k :| k in rest;
      if keep(rest[k]) {
        rows, ids := rows + [rest[k]], ids + [k];
      }
      rest := rest - {k};
    }
  }
}
