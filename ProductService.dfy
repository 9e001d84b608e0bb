/**
 * The catalogue: sellers create products (status DRAFT, with an empty
 * inventory record), update and archive their own; an admin may update and
 * archive any product. A seller asking for a product that is missing and one
 * asking for another seller's product get the same AccessDenied.
 */
module ProductService {
  import opened Domain
  import opened Text
  import opened Repositories

  /** The status applyUpdate stores: the request in upper case, DRAFT when the request is null. */
  function NormalizeProductStatus(requested: Option<string>): (r: Result<string>)
    ensures r.Success? ==> r.value in ProductStatuses
    ensures r.Failure? ==> r.error == IllegalArgument(InvalidStatus)
    ensures requested.None? ==> r == Success("DRAFT")
    ensures requested.Some? ==> (r.Success? <==> ToUpper(requested.value) in ProductStatuses)
    ensures requested.Some? && r.Success? ==> EqualsIgnoreCase(r.value, requested.value)
  {
    if requested.None? then Success("DRAFT")
    else
      var st := ToUpper(requested.value);
      if st in ProductStatuses then
        ToUpperIdempotent(requested.value);
        Success(st)
      else
        Failure(IllegalArgument(InvalidStatus))
  }

  /** Requests that differ only in case are treated alike. */
  lemma ProductStatusIgnoresCase(a: string, b: string)
    requires EqualsIgnoreCase(a, b)
    ensures NormalizeProductStatus(Some(a)) == NormalizeProductStatus(Some(b))
  {
  }

  /**
   * applyUpdate: the product with the request's category, title, description,
   * price and normalized status; the request is refused as a whole when its
   * status is not legal (the transaction undoes the fields already set).
   */
  function ApplyUpdate(p: Product, dto: ProductUpdateDto): (r: Result<Product>)
    ensures r.Success? <==> NormalizeProductStatus(dto.status).Success?
    ensures r.Failure? ==> r == Failure(IllegalArgument(InvalidStatus))
    ensures r.Success? ==>
              && r.value.id == p.id && r.value.seller == p.seller
              && r.value.category == dto.categoryId && r.value.title == dto.title
              && r.value.description == dto.description && r.value.price == dto.price
              && r.value.status in ProductStatuses
              && (dto.status.None? ==> r.value.status == "DRAFT")
              && (dto.status.Some? ==> EqualsIgnoreCase(r.value.status, dto.status.value))
  {
    var st := NormalizeProductStatus(dto.status);
    if st.Failure? then Failure(IllegalArgument(InvalidStatus))
    else Success(p.(category := dto.categoryId, title := dto.title, description := dto.description,
                    price := dto.price, status := st.value))
  }

  /** The product as archiving leaves it: status ARCHIVED, every other field kept. */
  function Archived(p: Product): (q: Product)
    ensures q.status == "ARCHIVED" && q.status in ProductStatuses
    ensures q.(status := p.status) == p
  {
    p.(status := "ARCHIVED")
  }

  lemma ArchiveIdempotent(p: Product)
    ensures Archived(Archived(p)) == Archived(p)
  {
  }

  /**
   * Creates a product for `seller` in status DRAFT, and its inventory record
   * with quantity 0 and reserved 0. An unknown category is refused; a null
   * price fails when it is unboxed, after the category check.
   */
  method Create(db: Store, seller: Id, dto: ProductDto) returns (r: Result<Product>)
    requires db.Valid()
    modifies db`products, db`nextProductId, db`inventories, db`nextInventoryId
    ensures db.Valid()
    ensures dto.categoryId !in old(db.categories) ==> r == Failure(IllegalArgument(CategoryNotFound))
    ensures dto.categoryId in old(db.categories) && dto.price.None? ==> r == Failure(NullPointer(PriceMissing))
    ensures r.Success? <==> dto.categoryId in old(db.categories) && dto.price.Some?
    ensures r.Failure? ==>
              && db.products == old(db.products) && db.inventories == old(db.inventories)
              && db.nextProductId == old(db.nextProductId) && db.nextInventoryId == old(db.nextInventoryId)
    ensures r.Success? ==>
              var p := r.value;
              && p == Product(old(db.nextProductId), seller, dto.categoryId, dto.title, dto.description, dto.price, "DRAFT")
              && p.id !in old(db.products)
              && db.products == old(db.products)[p.id := p] && db.nextProductId == old(db.nextProductId) + 1
              && db.inventories == old(db.inventories)[p.id := Inventory(old(db.nextInventoryId), p.id, 0, 0)]
              && db.nextInventoryId == old(db.nextInventoryId) + 1
  {
    if dto.categoryId !in db.categories {
      return Failure(IllegalArgument(CategoryNotFound));
    }
    if dto.price.None? {
      return Failure(NullPointer(PriceMissing));
    }
    var p := Product(0, seller, dto.categoryId, dto.title, dto.description, Some(dto.price.value), "DRAFT");
    var saved := db.SaveNewProduct(p);
    var inv := db.SaveNewInventory(Inventory(0, saved.id, 0, 0));
    r := Success(saved);
  }

  /** productRepository.findById, or IllegalArgument. */
  function GetById(db: Store, id: Id): (r: Result<Product>)
    reads db`products
    ensures r.Success? <==> id in db.products
    ensures r.Success? ==> r.value == db.products[id]
    ensures r.Failure? ==> r == Failure(IllegalArgument(ProductNotFound))
  {
    if id in db.products then Success(db.products[id]) else Failure(IllegalArgument(ProductNotFound))
  }

  /** The products a query keeps, each once. */
  predicate ListsExactly(table: map<Id, Product>, rows: seq<Product>, keep: Product -> bool) {
    && (forall i :: 0 <= i < |rows| ==> rows[i].id in table && table[rows[i].id] == rows[i] && keep(rows[i]))
    && (forall id :: id in table && keep(table[id]) ==> table[id] in rows)
    && (forall i, j :: 0 <= i < j < |rows| ==> rows[i] != rows[j])
  }

  /** A findAllBy... over products, whose keys are their ids. */
  method SelectProducts(db: Store, keep: Product -> bool) returns (rows: seq<Product>)
    requires db.Valid()
    ensures ListsExactly(db.products, rows, keep)
  {
    ghost var ids;
    rows, ids := Select(db.products, keep);
    forall id | id in db.products && keep(db.products[id])
      ensures db.products[id] in rows
    {
      var i :| 0 <= i < |ids| && ids[i] == id;
      assert rows[i] == db.products[id];
    }
    forall i, j | 0 <= i < j < |rows|
      ensures rows[i] != rows[j]
    {
      assert rows[i].id == ids[i] && rows[j].id == ids[j];
    }
  }

  /** productRepository.findAllByStatus("ACTIVE"): every ACTIVE product and nothing else. */
  method ListPublic(db: Store) returns (rows: seq<Product>)
    requires db.Valid()
    ensures ListsExactly(db.products, rows, (p: Product) => p.status == "ACTIVE")
    ensures forall i :: 0 <= i < |rows| ==> rows[i].status == "ACTIVE"
  {
    rows := SelectProducts(db, (p: Product) => p.status == "ACTIVE");
  }

  /** productRepository.findAllBySeller_Id: every product of the seller and nothing else. */
  method ListSellerProducts(db: Store, seller: Id) returns (rows: seq<Product>)
    requires db.Valid()
    ensures ListsExactly(db.products, rows, (p: Product) => p.seller == seller)
    ensures forall i :: 0 <= i < |rows| ==> rows[i].seller == seller
  {
    rows := SelectProducts(db, (p: Product) => p.seller == seller);
  }

  /**
   * The shared tail of the two updates: the category must exist, then
   * applyUpdate must accept the status; only then is the product written.
   */
  method UpdateFound(db: Store, product: Product, dto: ProductUpdateDto) returns (r: Result<Product>)
    requires db.Valid()
    requires product.id in db.products && db.products[product.id] == product
    modifies db`products
    ensures db.Valid()
    ensures dto.categoryId !in db.categories ==> r == Failure(IllegalArgument(CategoryNotFound))
    ensures dto.categoryId in db.categories ==> r == ApplyUpdate(product, dto)
    ensures r.Failure? ==> db.products == old(db.products)
    ensures r.Success? ==> db.products == old(db.products)[product.id := r.value]
  {
    if dto.categoryId !in db.categories {
      return Failure(IllegalArgument(CategoryNotFound));
    }
    r := ApplyUpdate(product, dto);
    if r.Success? {
      db.UpdateProduct(r.value);
    }
  }

  /**
   * A seller's update of their own product. A product that is missing and a
   * product of another seller are refused alike, before the category check.
   */
  method UpdateBySeller(db: Store, seller: Id, productId: Id, dto: ProductUpdateDto) returns (r: Result<Product>)
    requires db.Valid()
    modifies db`products
    ensures db.Valid()
    ensures productId !in old(db.products) || old(db.products[productId].seller) != seller ==>
              r == Failure(AccessDenied(NoAccessToProduct))
    ensures productId in old(db.products) && old(db.products[productId].seller) == seller ==>
              (dto.categoryId !in db.categories ==> r == Failure(IllegalArgument(CategoryNotFound)))
              && (dto.categoryId in db.categories ==> r == ApplyUpdate(old(db.products[productId]), dto))
    ensures r.Failure? ==> db.products == old(db.products)
    ensures r.Success? ==> db.products == old(db.products)[productId := r.value]
  {
    var found := db.FindByIdAndSeller(productId, seller);
    if found.None? {
      return Failure(AccessDenied(NoAccessToProduct));
    }
    r := UpdateFound(db, found.value, dto);
  }

  /** An admin's update of any product: only an unknown product is refused before the category check. */
  method UpdateByAdmin(db: Store, productId: Id, dto: ProductUpdateDto) returns (r: Result<Product>)
    requires db.Valid()
    modifies db`products
    ensures db.Valid()
    ensures productId !in old(db.products) ==> r == Failure(IllegalArgument(ProductNotFound))
    ensures productId in old(db.products) ==>
              (dto.categoryId !in db.categories ==> r == Failure(IllegalArgument(CategoryNotFound)))
              && (dto.categoryId in db.categories ==> r == ApplyUpdate(old(db.products[productId]), dto))
    ensures r.Failure? ==> db.products == old(db.products)
    ensures r.Success? ==> db.products == old(db.products)[productId := r.value]
  {
    if productId !in db.products {
      return Failure(IllegalArgument(ProductNotFound));
    }
    r := UpdateFound(db, db.products[productId], dto);
  }

  /** A seller archives their own product; a missing or foreign product is refused alike. */
  method ArchiveBySeller(db: Store, seller: Id, productId: Id) returns (r: Result<()>)
    requires db.Valid()
    modifies db`products
    ensures db.Valid()
    ensures r.Failure? <==> productId !in old(db.products) || old(db.products[productId].seller) != seller
    ensures r.Failure? ==> r == Failure(AccessDenied(NoAccessToProduct)) && db.products == old(db.products)
    ensures r.Success? ==> db.products == old(db.products)[productId := Archived(old(db.products[productId]))]
  {
    var found := db.FindByIdAndSeller(productId, seller);
    if found.None? {
      return Failure(AccessDenied(NoAccessToProduct));
    }
    db.UpdateProduct(Archived(found.value));
    r := Success(());
  }

  /** An admin archives any product; only an unknown product is refused. */
  method ArchiveByAdmin(db: Store, productId: Id) returns (r: Result<()>)
    requires db.Valid()
    modifies db`products
    ensures db.Valid()
    ensures r.Failure? <==> productId !in old(db.products)
    ensures r.Failure? ==> r == Failure(IllegalArgument(ProductNotFound)) && db.products == old(db.products)
    ensures r.Success? ==> db.products == old(db.products)[productId := Archived(old(db.products[productId]))]
  {
    if productId !in db.products {
      return Failure(IllegalArgument(ProductNotFound));
    }
    db.UpdateProduct(Archived(db.products[productId]));
    r := Success(());
  }
}
