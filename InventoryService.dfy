/**
 * Stock records, one per product: read by product id, and set by the
 * product's seller or by an admin through upsert, which creates the record
 * when the product has none and refuses negative quantities.
 */
module InventoryService {
  import opened Domain
  import opened Repositories

  /** inventoryRepository.findByProduct_Id, or IllegalArgument. */
  function GetByProductId(db: Store, productId: Id): (r: Result<Inventory>)
    reads db`inventories
    ensures r.Success? <==> productId in db.inventories
    ensures r.Success? ==> r.value == db.inventories[productId]
    ensures r.Failure? ==> r == Failure(IllegalArgument(InventoryNotFound))
  {
    if productId in db.inventories then Success(db.inventories[productId])
    else Failure(IllegalArgument(InventoryNotFound))
  }

  /** The quantity upsert stores: a null request is 0, a negative one is refused. */
  function RequestedQuantity(dto: InventoryDto): (r: Result<int>)
    ensures r.Success? ==> r.value >= 0
    ensures r.Success? <==> dto.quantity.None? || dto.quantity.value >= 0
    ensures r.Failure? ==> r == Failure(IllegalArgument(NegativeQuantity))
    ensures dto.quantity.None? ==> r == Success(0)
    ensures dto.quantity.Some? && r.Success? ==> r.value == dto.quantity.value
  {
    var qty := if dto.quantity.None? then 0 else dto.quantity.value;
    if qty < 0 then Failure(IllegalArgument(NegativeQuantity)) else Success(qty)
  }

  /**
   * Sets the product's stock quantity. An existing record keeps its id and
   * reserved count; a product without one gets a new record with reserved 0.
   * A refused quantity saves nothing.
   */
  method Upsert(db: Store, product: Product, dto: InventoryDto) returns (r: Result<Inventory>)
    requires db.Valid()
    requires product.id in db.products
    modifies db`inventories, db`nextInventoryId
    ensures db.Valid()
    ensures r.Failure? <==> RequestedQuantity(dto).Failure?
    ensures r.Failure? ==>
              r == Failure(IllegalArgument(NegativeQuantity))
              && db.inventories == old(db.inventories) && db.nextInventoryId == old(db.nextInventoryId)
    ensures r.Success? ==> r.value.product == product.id && RequestedQuantity(dto) == Success(r.value.quantity)
    ensures r.Success? ==> db.inventories == old(db.inventories)[product.id := r.value]
    ensures r.Success? && product.id in old(db.inventories) ==>
              && r.value.id == old(db.inventories[product.id].id)
              && r.value.reserved == old(db.inventories[product.id].reserved)
              && db.nextInventoryId == old(db.nextInventoryId)
    ensures r.Success? && product.id !in old(db.inventories) ==>
              && r.value == Inventory(old(db.nextInventoryId), product.id, r.value.quantity, 0)
              && db.nextInventoryId == old(db.nextInventoryId) + 1
  {
    var existing := product.id in db.inventories;
    var inv := if existing then db.inventories[product.id] else Inventory(0, product.id, 0, 0);
    var qty := RequestedQuantity(dto);
    if qty.Failure? {
      return Failure(IllegalArgument(NegativeQuantity));
    }
    inv := inv.(quantity := qty.value);
    if existing {
      db.UpdateInventory(inv);
    } else {
      inv := db.SaveNewInventory(inv);
    }
    r := Success(inv);
  }

  /** The seller of the product sets its stock; a missing or foreign product is refused alike. */
  method SetQuantityBySeller(db: Store, seller: Id, productId: Id, dto: InventoryDto) returns (r: Result<Inventory>)
    requires db.Valid()
    modifies db`inventories, db`nextInventoryId
    ensures db.Valid()
    ensures productId !in db.products || db.products[productId].seller != seller ==>
              r == Failure(AccessDenied(NoAccessToProduct))
              && db.inventories == old(db.inventories) && db.nextInventoryId == old(db.nextInventoryId)
    ensures productId in db.products && db.products[productId].seller == seller ==>
              (r.Failure? <==> RequestedQuantity(dto).Failure?)
    ensures productId in db.products && db.products[productId].seller == seller && RequestedQuantity(dto).Failure? ==>
              r == Failure(IllegalArgument(NegativeQuantity))
    ensures r.Failure? ==> db.inventories == old(db.inventories) && db.nextInventoryId == old(db.nextInventoryId)
    ensures r.Success? ==>
              && productId in db.products && db.products[productId].seller == seller
              && RequestedQuantity(dto) == Success(r.value.quantity)
              && db.inventories == old(db.inventories)[productId := r.value]
    ensures r.Success? && productId in old(db.inventories) ==>
              && r.value.id == old(db.inventories[productId].id)
              && r.value.reserved == old(db.inventories[productId].reserved)
              && db.nextInventoryId == old(db.nextInventoryId)
    ensures r.Success? && productId !in old(db.inventories) ==>
              && r.value == Inventory(old(db.nextInventoryId), productId, r.value.quantity, 0)
              && db.nextInventoryId == old(db.nextInventoryId) + 1
  {
    var found := db.FindByIdAndSeller(productId, seller);
    if found.None? {
      return Failure(AccessDenied(NoAccessToProduct));
    }
    r := Upsert(db, found.value, dto);
  }

  /** An admin sets any product's stock; only an unknown product is refused. */
  method SetQuantityByAdmin(db: Store, productId: Id, dto: InventoryDto) returns (r: Result<Inventory>)
    requires db.Valid()
    modifies db`inventories, db`nextInventoryId
    ensures db.Valid()
    ensures productId !in db.products ==>
              r == Failure(IllegalArgument(ProductNotFound))
              && db.inventories == old(db.inventories) && db.nextInventoryId == old(db.nextInventoryId)
    ensures productId in db.products ==> (r.Failure? <==> RequestedQuantity(dto).Failure?)
    ensures productId in db.products && RequestedQuantity(dto).Failure? ==>
              r == Failure(IllegalArgument(NegativeQuantity))
    ensures r.Failure? ==> db.inventories == old(db.inventories) && db.nextInventoryId == old(db.nextInventoryId)
    ensures r.Success? ==>
              && RequestedQuantity(dto) == Success(r.value.quantity)
              && db.inventories == old(db.inventories)[productId := r.value]
    ensures r.Success? && productId in old(db.inventories) ==>
              && r.value.id == old(db.inventories[productId].id)
              && r.value.reserved == old(db.inventories[productId].reserved)
              && db.nextInventoryId == old(db.nextInventoryId)
    ensures r.Success? && productId !in old(db.inventories) ==>
              && r.value == Inventory(old(db.nextInventoryId), productId, r.value.quantity, 0)
              && db.nextInventoryId == old(db.nextInventoryId) + 1
  {
    if productId !in db.products {
      return Failure(IllegalArgument(ProductNotFound));
    }
    r := Upsert(db, db.products[productId], dto);
  }
}
