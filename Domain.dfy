/**
 * The records of the marketplace: the persisted entities (products, inventory,
 * categories, carts and their lines, orders and their items), the request
 * bodies the services receive, and the exceptions they raise.
 *
 * Java's nullable boxed fields (`Long`, `Integer`, `String`) that the services
 * test against null are `Option`s here; identifiers are plain integers.
 */
module Domain {

  type Id = int

  datatype Option<+T> = None | Some(value: T)

  /** Why a service call failed; the exception class is the constructor of `Exception`. */
  datatype Reason =
    | ProductNotFound
    | ProductArchived
    | CartItemNotFound
    | CartEmpty
    | OrderNotFound
    | NotYourOrder
    | InvalidStatus
    | CategoryNotFound
    | NoAccessToProduct
    | InventoryNotFound
    | NegativeQuantity
    | CategoryNameRequired
    | ParentCategoryNotFound
    | CategoryExistsOnLevel
    | PriceMissing

  datatype Exception =
    | IllegalArgument(reason: Reason)   // java.lang.IllegalArgumentException
    | AccessDenied(reason: Reason)      // Spring's / java.nio's AccessDeniedException
    | NullPointer(reason: Reason)       // unboxing a null Long

  /** The outcome of a service call: its return value, or the exception it throws. */
  datatype Result<+T> = Success(value: T) | Failure(error: Exception)

  /** A map that is not empty has a key. */
  lemma HasKey<V>(m: map<Id, V>)
    requires m != map[]
    ensures exists k :: k in m
  {
    if forall k :: k !in m {
      assert false;
    }
  }

  /** A null `Long`/`Integer` read as 0, as the totals and checkout do. */
  function OrZero(x: Option<int>): int {
    if x.Some? then x.value else 0
  }

  // ---------------------------------------------------------------- entities

  datatype Product = Product(
    id: Id,
    seller: Id,
    category: Id,
    title: string,
    description: string,
    price: Option<int>,
    status: string)

  datatype Inventory = Inventory(id: Id, product: Id, quantity: int, reserved: int)

  datatype Category = Category(id: Id, name: string, parent: Option<Id>)

  /** A buyer's cart; its lines are stored separately, keyed by (cart, product). */
  datatype Cart = Cart(id: Id, buyer: Id)

  datatype CartItem = CartItem(
    cart: Id,
    product: Id,
    quantity: Option<int>,
    priceSnapshot: Option<int>)

  datatype OrderItem = OrderItem(product: Id, seller: Id, quantity: int, priceSnapshot: int)

  datatype Order = Order(
    id: Id,
    buyer: Id,
    status: string,
    items: seq<OrderItem>,
    totalAmount: int)

  /** Sum of price x quantity over an order's items. */
  function ItemsTotal(items: seq<OrderItem>): int {
    if items == [] then 0
    else ItemsTotal(items[..|items| - 1]) + items[|items| - 1].priceSnapshot * items[|items| - 1].quantity
  }

  /** The set of products an order's items refer to. */
  function ProductsOf(items: seq<OrderItem>): set<Id> {
    set i | 0 <= i < |items| :: items[i].product
  }

  // ----------------------------------------------------------- status tables

  const OrderStatuses: set<string> := {"CREATED", "PAID", "SHIPPED", "CANCELLED", "COMPLETED"}

  const ProductStatuses: set<string> := {"DRAFT", "ACTIVE", "ARCHIVED"}

  // ------------------------------------------------------------ request bodies

  datatype CartItemDto = CartItemDto(productId: Id, quantity: Option<int>)

  datatype ProductDto = ProductDto(
    categoryId: Id,
    title: string,
    description: string,
    price: Option<int>)

  datatype ProductUpdateDto = ProductUpdateDto(
    categoryId: Id,
    title: string,
    description: string,
    price: Option<int>,
    status: Option<string>)

  datatype InventoryDto = InventoryDto(quantity: Option<int>)

  datatype CategoryDto = CategoryDto(name: Option<string>, parentId: Option<Id>)
}
