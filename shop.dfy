/** The records the storefront stores and passes around. */
module Shop {

  datatype Category = Sale | Rent

  /**
   * A catalog entry. `id` is typed in by the administrator and is the key
   * every list operation matches on; `stock` and `price` are whole numbers.
   */
  datatype Product = Product(
    id: string,
    title: string,
    description: string,
    images: seq<string>,
    stock: int,
    category: Category,
    size: string,
    price: int)

  /** A cart line: a copy of the product taken when it was first added, and a quantity. */
  datatype CartItem = CartItem(product: Product, quantity: int)

  datatype OrderType = Delivery | Booking

  datatype Status = Pending | Confirmed

  datatype Order = Order(
    id: string,
    customerName: string,
    customerPhone: string,
    location: string,
    items: seq<CartItem>,
    kind: OrderType,
    status: Status,
    totalPrice: int,
    userTelegram: string)

  /** The admin wizard's empty draft: no images, stock 1, category sale, size M, price 0. */
  const DefaultDraft := Product("", "", "", [], 1, Sale, "M", 0)

  /** The fixed customer handle written into every order. */
  const TelegramPlaceholder := "@foydalanuvchi"

  function LineId(i: CartItem): string
  {
    i.product.id
  }

  function ProductId(p: Product): string
  {
    p.id
  }
}
