/** Row shapes of the `products`, `orders` and `order_items` tables
    (lib/supabase/database.types.ts). Timestamps are integers so that
    they can be ordered. */
module Schema {
  import opened Wrappers

  /** The order `status` column: exactly seven values. */
  datatype OrderStatus = Pending | Confirmed | Packing | Ready | Dispatched | Completed | Cancelled

  /** The statuses in the order the admin status menu offers them. */
  const AllStatuses: seq<OrderStatus> :=
    [Pending, Confirmed, Packing, Ready, Dispatched, Completed, Cancelled]

  function StatusName(s: OrderStatus): string {
    match s
    case Pending => "pending"
    case Confirmed => "confirmed"
    case Packing => "packing"
    case Ready => "ready"
    case Dispatched => "dispatched"
    case Completed => "completed"
    case Cancelled => "cancelled"
  }

  /** Reads a status name; anything outside the seven names is rejected. */
  function ParseStatus(name: string): (r: Option<OrderStatus>)
    ensures r.Some? ==> StatusName(r.value) == name
    ensures (exists s :: StatusName(s) == name) ==> r.Some?
  {
    if name == "pending" then Some(Pending)
    else if name == "confirmed" then Some(Confirmed)
    else if name == "packing" then Some(Packing)
    else if name == "ready" then Some(Ready)
    else if name == "dispatched" then Some(Dispatched)
    else if name == "completed" then Some(Completed)
    else if name == "cancelled" then Some(Cancelled)
    else None
  }

  /** Every status is listed once, and its name reads back as itself. */
  lemma StatusNamesRoundTrip(s: OrderStatus)
    ensures s in AllStatuses
    ensures ParseStatus(StatusName(s)) == Some(s)
  {
  }

  /** `fulfillment_type`: pickup or delivery. */
  datatype Fulfillment = Pickup | Delivery

  function FulfillmentName(f: Fulfillment): string {
    match f
    case Pickup => "pickup"
    case Delivery => "delivery"
  }

  function ParseFulfillment(name: string): (r: Option<Fulfillment>)
    ensures r.Some? <==> name == "pickup" || name == "delivery"
    ensures r.Some? ==> FulfillmentName(r.value) == name
  {
    if name == "pickup" then Some(Pickup)
    else if name == "delivery" then Some(Delivery)
    else None
  }

  /** A `products` row. */
  datatype Product = Product(
    id: string,
    name: string,
    nameSi: Option<string>,
    nameTa: Option<string>,
    price: real,
    imageUrl: Option<string>,
    description: Option<string>,
    descriptionSi: Option<string>,
    descriptionTa: Option<string>,
    category: string,
    isAvailable: bool,
    createdAt: int,
    updatedAt: int)

  /** `products.map(p => p.category)`. */
  function CategoryNames(products: seq<Product>): (r: seq<string>)
    ensures |r| == |products|
    ensures forall i :: 0 <= i < |products| ==> r[i] == products[i].category
  {
    seq(|products|, i requires 0 <= i < |products| => products[i].category)
  }

  /** An `orders` row. */
  datatype Order = Order(
    id: string,
    orderNumber: string,
    createdAt: int,
    updatedAt: int,
    userId: string,
    customerName: string,
    customerPhone: string,
    customerEmail: Option<string>,
    fulfillment: Fulfillment,
    deliveryAddress: Option<string>,
    deliveryLat: Option<real>,
    deliveryLng: Option<real>,
    deliveryDistanceKm: Option<real>,
    subtotal: real,
    deliveryFee: real,
    expressDelivery: bool,
    total: real,
    status: OrderStatus,
    customerNotes: Option<string>,
    adminNotes: Option<string>)

  /** An `order_items` row (the generated `id` and `created_at` are not
      modelled). */
  datatype OrderItem = OrderItem(
    orderId: string,
    productId: string,
    productName: string,
    quantity: int,
    priceAtPurchase: real,
    subtotal: real)

  /** The `orders` Insert shape: `None` marks an optional field left out. */
  datatype OrderInsert = OrderInsert(
    id: Option<string>,
    orderNumber: Option<string>,
    userId: string,
    customerName: string,
    customerPhone: string,
    customerEmail: Option<string>,
    fulfillment: Fulfillment,
    deliveryAddress: Option<string>,
    deliveryLat: Option<real>,
    deliveryLng: Option<real>,
    deliveryDistanceKm: Option<real>,
    subtotal: real,
    deliveryFee: Option<real>,
    expressDelivery: Option<bool>,
    total: real,
    status: Option<OrderStatus>,
    customerNotes: Option<string>,
    adminNotes: Option<string>)

  /** What the database supplies for the columns an insert leaves out: the
      generated keys, the insert time and the column defaults. */
  datatype ServerAssigned = ServerAssigned(
    id: string,
    orderNumber: string,
    now: int,
    defaultStatus: OrderStatus,
    defaultDeliveryFee: real,
    defaultExpress: bool)

  /** The row an insert produces. */
  function InsertedOrder(ins: OrderInsert, srv: ServerAssigned): (o: Order)
    ensures o.id == ins.id.GetOr(srv.id) && o.orderNumber == ins.orderNumber.GetOr(srv.orderNumber)
    ensures o.status == ins.status.GetOr(srv.defaultStatus)
    ensures o.deliveryFee == ins.deliveryFee.GetOr(srv.defaultDeliveryFee)
    ensures o.expressDelivery == ins.expressDelivery.GetOr(srv.defaultExpress)
    ensures o.createdAt == srv.now && o.updatedAt == srv.now
    ensures o.userId == ins.userId && o.customerName == ins.customerName
    ensures o.customerPhone == ins.customerPhone && o.customerEmail == ins.customerEmail
    ensures o.fulfillment == ins.fulfillment && o.deliveryAddress == ins.deliveryAddress
    ensures o.deliveryLat == ins.deliveryLat && o.deliveryLng == ins.deliveryLng
    ensures o.deliveryDistanceKm == ins.deliveryDistanceKm
    ensures o.subtotal == ins.subtotal && o.total == ins.total
    ensures o.customerNotes == ins.customerNotes && o.adminNotes == ins.adminNotes
  {
    Order(
      ins.id.GetOr(srv.id), ins.orderNumber.GetOr(srv.orderNumber), srv.now, srv.now,
      ins.userId, ins.customerName, ins.customerPhone, ins.customerEmail,
      ins.fulfillment, ins.deliveryAddress, ins.deliveryLat, ins.deliveryLng,
      ins.deliveryDistanceKm, ins.subtotal, ins.deliveryFee.GetOr(srv.defaultDeliveryFee),
      ins.expressDelivery.GetOr(srv.defaultExpress), ins.total,
      ins.status.GetOr(srv.defaultStatus), ins.customerNotes, ins.adminNotes)
  }

  /** The optional columns really are optional: an insert that leaves them
      out takes the server's values, one that supplies them keeps its own. */
  lemma OptionalColumns(ins: OrderInsert, srv: ServerAssigned)
    ensures ins.id.None? ==> InsertedOrder(ins, srv).id == srv.id
    ensures ins.id.Some? ==> InsertedOrder(ins, srv).id == ins.id.value
    ensures ins.status.None? ==> InsertedOrder(ins, srv).status == srv.defaultStatus
    ensures ins.status.Some? ==> InsertedOrder(ins, srv).status == ins.status.value
    ensures ins.deliveryFee.Some? ==> InsertedOrder(ins, srv).deliveryFee == ins.deliveryFee.value
  {
  }
}
