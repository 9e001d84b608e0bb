/**
 * The response view of one cart line, and its subtotal.
 */
module CartItemMapper {
  import opened Domain

  datatype CartItemResDto = CartItemResDto(
    productId: Id,
    productTitle: string,
    quantity: Option<int>,
    priceSnapshot: Option<int>,
    subtotal: int)

  /** price snapshot x quantity, or 0 when either is null. */
  function Subtotal(item: CartItem): (s: int)
    ensures item.priceSnapshot.None? || item.quantity.None? ==> s == 0
    ensures s == OrZero(item.priceSnapshot) * OrZero(item.quantity)
    ensures OrZero(item.priceSnapshot) >= 0 && OrZero(item.quantity) >= 0 ==> s >= 0
  {
    if item.priceSnapshot.None? || item.quantity.None? then 0
    else item.priceSnapshot.value * item.quantity.value
  }

  /** The line's view: product id and title from its product, its own fields copied, and its subtotal. */
  function ToResDto(item: CartItem, product: Product): (d: CartItemResDto)
    requires item.product == product.id
    ensures d.productId == item.product && d.productTitle == product.title
    ensures d.quantity == item.quantity && d.priceSnapshot == item.priceSnapshot
    ensures d.subtotal == Subtotal(item)
  {
    CartItemResDto(product.id, product.title, item.quantity, item.priceSnapshot, Subtotal(item))
  }

  /** Checkout reads both nulls as 0 before multiplying, which gives the same amount. */
  lemma CheckoutAmountIsSubtotal(item: CartItem)
    ensures OrZero(item.priceSnapshot) * OrZero(item.quantity) == Subtotal(item)
  {
  }
}
