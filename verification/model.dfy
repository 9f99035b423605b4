/** Records of the marketplace's document store and the reply every request
    handler produces.

    Each route handler is modelled as a pure function from a `Store` and a
    request to a `Reply`: the store after the handler ran to completion (or to
    the point where it failed), the JSON outcome, and the calls it made to the
    external media store, in order. */
module Model {

  /** Document identity (a database object id). */
  type Id = nat

  datatype Option<+T> = None | Some(value: T)

  /** What made a handler fail. */
  datatype Cause =
    | Message(text: string)   // an explicit ErrorHandler message, or the message of a thrown Error
    | NullAccess              // a TypeError from reading a property of null or undefined

  /** The failure a handler reports: the HTTP status code and its cause. */
  datatype Error = Error(status: nat, cause: Cause)

  datatype Result<+T> = Ok(value: T) | Err(error: Error)

  /** A reference to a user as stored inside orders and reviews. */
  datatype UserRef = UserRef(id: Id, name: string)

  /** One line of a checkout cart: its own id, the product bought, the shop
      selling it, the quantity and whether the buyer has reviewed it. */
  datatype CartItem = CartItem(id: Id, productId: Id, shopId: Id, qty: int, isReviewed: bool)

  datatype PaymentInfo = PaymentInfo(paymentType: string, status: string, amount: real)

  datatype Order = Order(
    cart: seq<CartItem>,
    shippingAddress: string,
    user: UserRef,
    totalPrice: real,
    paymentInfo: PaymentInfo,
    status: string,
    deliveredAt: Option<int>)

  datatype Review = Review(user: UserRef, rating: real, comment: string, productId: Id)

  /** An uploaded image: the media store's asset id and its URL. */
  datatype ImageAsset = ImageAsset(publicId: string, url: string)

  /** The shop fields copied into a product when it is created. */
  datatype ShopSnapshot = ShopSnapshot(
    address: string, phoneNumber: string, email: string, name: string, reviews: seq<Review>)

  datatype Product = Product(
    name: string,
    description: string,
    category: string,
    shopId: Id,
    shop: ShopSnapshot,
    discountPrice: real,
    stock: int,
    soldOut: int,
    images: seq<ImageAsset>,
    reviews: seq<Review>,
    ratings: Option<real>)

  datatype Shop = Shop(
    name: string,
    email: string,
    address: string,
    phoneNumber: string,
    reviews: seq<Review>,
    availableBalance: real)

  /** The database. Orders are never deleted by these handlers, so an order's
      id is its position; products are keyed by id and get fresh ids from
      `nextProductId`. */
  datatype Store = Store(
    orders: seq<Order>,
    products: map<Id, Product>,
    shops: map<Id, Shop>,
    nextProductId: Id)

  /** Every stored product has an id below the next one handed out. */
  predicate Valid(st: Store) {
    forall k :: k in st.products ==> k < st.nextProductId
  }

  /** A call made to the external media store. */
  datatype MediaCall = Upload(source: string) | Destroy(publicId: string)

  datatype Reply<+T> = Reply(store: Store, result: Result<T>, media: seq<MediaCall>)

  // Order statuses the handlers react to. Any other string is stored as given.
  const Processing := "Processing"
  const TransferredToDelivery := "Transferred to delivery partner"
  const Delivered := "Delivered"
  const RefundSuccess := "Refund Success"

  /** Payment status recorded when an order is delivered. */
  const PaymentSucceeded := "Succeeded"

  /** Share of an order's total kept by the marketplace on delivery. */
  const ServiceChargeRate: real := 0.10
}
