/** The checkout page (app/checkout/page.tsx): the delivery-fee effect,
    the submit checks and the order payload sent to the orders API. The
    haversine distance of the chosen point is an input. */
module Checkout {
  import opened Wrappers
  import opened Schema
  import Delivery
  import Strings
  import CartStore
  import OrdersApi

  /** Shop coordinates used when the environment leaves them unset. */
  const DefaultShopLat: real := 6.2357
  const DefaultShopLng: real := 80.0534

  const OutsideRadiusMessage := "Selected location is outside our delivery radius"
  const MissingLocationMessage := "Please select a delivery location on the map"
  const FailedMessage := "Failed to place order"

  /** The form fields. A coordinate is `None` until a point is picked. */
  datatype CheckoutForm = CheckoutForm(
    fulfillment: Fulfillment,
    customerName: string,
    customerPhone: string,
    customerEmail: string,
    deliveryAddress: string,
    deliveryLat: Option<real>,
    deliveryLng: Option<real>,
    express: bool,
    customerNotes: string)

  /** The derived state: distance, fee and the radius verdict. */
  datatype FeeState = FeeState(distance: real, fee: real, withinRadius: bool)

  const InitialFees := FeeState(0.0, 0.0, true)

  /** A coordinate counts as present when it is truthy: set and not 0. */
  predicate Given(x: Option<real>) {
    x.Some? && x.value != 0.0
  }

  predicate HasLocation(form: CheckoutForm) {
    Given(form.deliveryLat) && Given(form.deliveryLng)
  }

  /** The fee effect. `distance` is the haversine distance from the shop to
      the picked point. */
  function FeeEffect(prev: FeeState, form: CheckoutForm, distance: real, cartTotal: real,
                     cfg: Delivery.FeeConfig, maxRadiusKm: real): (s: FeeState)
    ensures !(form.fulfillment == Delivery && HasLocation(form)) ==> s == FeeState(0.0, 0.0, true)
    ensures form.fulfillment == Delivery && HasLocation(form) ==>
      && s.distance == distance
      && (s.withinRadius <==> distance <= maxRadiusKm)
      && (s.withinRadius ==> s.fee == Delivery.DeliveryFee(cfg, distance, cartTotal, form.express) as real)
      && (!s.withinRadius ==> s.fee == prev.fee)
  {
    if form.fulfillment == Delivery && HasLocation(form) then
      var r := Delivery.RadiusCheck(distance, maxRadiusKm);
      var fee := if r.withinRadius then Delivery.DeliveryFee(cfg, r.distance, cartTotal, form.express) as real else prev.fee;
      FeeState(r.distance, fee, r.withinRadius)
    else FeeState(0.0, 0.0, true)
  }

  /** A coordinate of exactly 0 is taken as no location: the fee is
      cleared as for pickup. */
  lemma ZeroCoordinateIsMissing(prev: FeeState, form: CheckoutForm, distance: real, cartTotal: real,
                                cfg: Delivery.FeeConfig, maxRadiusKm: real)
    requires form.deliveryLat == Some(0.0)
    ensures FeeEffect(prev, form, distance, cartTotal, cfg, maxRadiusKm) == InitialFees
  {
  }

  /** `disabled` of the submit button. */
  predicate SubmitDisabled(loading: bool, form: CheckoutForm, fees: FeeState) {
    loading || (form.fulfillment == Delivery && !fees.withinRadius)
  }

  // ---------------------------------------------------------------------
  // Submit
  // ---------------------------------------------------------------------

  datatype CheckoutError = OutsideRadius | MissingLocation | NotSignedIn | ServerRefused(message: string)

  function ErrorMessage(e: CheckoutError): string {
    match e
    case OutsideRadius => OutsideRadiusMessage
    case MissingLocation => MissingLocationMessage
    case NotSignedIn => "Cannot read properties of null (reading 'id')"
    case ServerRefused(m) => m
  }

  /** `orderData`'s line for one cart line: a snapshot of the product. */
  function LineSnapshot(it: CartStore.CartItem): (r: OrdersApi.ItemRequest)
    ensures r.productId == it.product.id && r.productName == it.product.name
    ensures r.quantity == it.quantity && r.priceAtPurchase == it.product.price
    ensures r.subtotal == CartStore.LineAmount(it)
  {
    OrdersApi.ItemRequest(it.product.id, it.product.name, it.quantity, it.product.price,
                          it.product.price * it.quantity as real)
  }

  function Snapshots(items: seq<CartStore.CartItem>): (r: seq<OrdersApi.ItemRequest>)
    ensures |r| == |items|
    ensures forall i :: 0 <= i < |items| ==> r[i] == LineSnapshot(items[i])
  {
    seq(|items|, i requires 0 <= i < |items| => LineSnapshot(items[i]))
  }

  function NullIfEmpty(s: string): (r: Option<string>)
    ensures r.None? <==> s == ""
    ensures r.Some? ==> r.value == s
  {
    if s == "" then None else Some(s)
  }

  /** `orderData`. */
  function OrderPayload(userId: string, form: CheckoutForm, fees: FeeState, cart: CartStore.Cart): (p: OrdersApi.OrderRequest)
    // the delivery fields are null exactly for pickup
    ensures form.fulfillment == Pickup <==> p.deliveryAddress.None?
    ensures form.fulfillment == Pickup ==> p.deliveryLat.None? && p.deliveryLng.None? && p.deliveryDistanceKm.None?
    ensures form.fulfillment == Delivery ==>
      p.deliveryLat == form.deliveryLat && p.deliveryLng == form.deliveryLng
      && p.deliveryDistanceKm == Some(fees.distance) && p.deliveryAddress == Some(form.deliveryAddress)
    // amounts
    ensures p.subtotal == cart.total && p.deliveryFee == Some(fees.fee)
    ensures p.total == p.subtotal + fees.fee
    // blank optional text becomes null
    ensures p.customerEmail == NullIfEmpty(form.customerEmail) && p.customerNotes == NullIfEmpty(form.customerNotes)
    ensures p.userId == Some(userId) && p.fulfillmentType == Some(FulfillmentName(form.fulfillment))
    ensures p.items == OrdersApi.ItemList(Snapshots(cart.items))
  {
    var delivery := form.fulfillment == Delivery;
    OrdersApi.OrderRequest(
      Some(userId), Some(form.customerName), Some(form.customerPhone),
      NullIfEmpty(form.customerEmail), Some(FulfillmentName(form.fulfillment)),
      if delivery then Some(form.deliveryAddress) else None,
      if delivery then form.deliveryLat else None,
      if delivery then form.deliveryLng else None,
      if delivery then Some(fees.distance) else None,
      cart.total, Some(fees.fee), Some(form.express), cart.total + fees.fee,
      NullIfEmpty(form.customerNotes), OrdersApi.ItemList(Snapshots(cart.items)))
  }

  /** The orders API's answer: the new order's id, or a refusal with an
      optional `error` text. */
  datatype ServerReply = Accepted(orderId: string) | Refused(error: Option<string>)

  datatype SubmitOutcome = SubmitOutcome(
    error: Option<CheckoutError>,
    sent: Option<OrdersApi.OrderRequest>,
    storage: CartStore.Storage,
    navigateTo: Option<string>)

  /** The two delivery checks of `handleSubmit` pass: pickup, or delivery
      inside the radius with a picked point. */
  predicate ChecksPass(form: CheckoutForm, fees: FeeState) {
    form.fulfillment == Delivery ==> fees.withinRadius && HasLocation(form)
  }

  /** `handleSubmit`. */
  function Submit(user: Option<string>, form: CheckoutForm, fees: FeeState, cart: CartStore.Cart,
                  storage: CartStore.Storage, reply: ServerReply): (o: SubmitOutcome)
    // the radius check comes first, then the location check; nothing is sent after either
    ensures form.fulfillment == Delivery && !fees.withinRadius ==>
      o == SubmitOutcome(Some(OutsideRadius), None, storage, None)
    ensures form.fulfillment == Delivery && fees.withinRadius && !HasLocation(form) ==>
      o == SubmitOutcome(Some(MissingLocation), None, storage, None)
    // past the checks, a signed-in user's order is always sent, and nobody else's
    ensures ChecksPass(form, fees) && user.Some? ==> o.sent == Some(OrderPayload(user.value, form, fees, cart))
    ensures ChecksPass(form, fees) && user.None? ==> o == SubmitOutcome(Some(NotSignedIn), None, storage, None)
    ensures o.sent.Some? ==> user.Some? && ChecksPass(form, fees) && o.sent.value == OrderPayload(user.value, form, fees, cart)
    ensures o.sent.Some? && reply.Accepted? ==> o.error.None?
    // success clears the stored cart and opens the success page; anything else keeps it
    ensures o.error.None? <==> o.navigateTo.Some?
    ensures o.error.None? ==>
      && reply.Accepted? && o.sent.Some?
      && o.storage == CartStore.ClearCart(storage).storage
      && o.navigateTo == Some("/orders/success?orderId=" + reply.orderId)
    ensures o.error.Some? ==> o.storage == storage
    ensures o.error.Some? && o.error.value.ServerRefused? <==> o.sent.Some? && reply.Refused?
    ensures o.error.Some? && o.error.value.ServerRefused? ==>
      o.error.value.message == (if Strings.Truthy(reply.error) then reply.error.value else FailedMessage)
  {
    if form.fulfillment == Delivery && !fees.withinRadius then
      SubmitOutcome(Some(OutsideRadius), None, storage, None)
    else if form.fulfillment == Delivery && !HasLocation(form) then
      SubmitOutcome(Some(MissingLocation), None, storage, None)
    else if user.None? then
      SubmitOutcome(Some(NotSignedIn), None, storage, None)
    else
      var payload := OrderPayload(user.value, form, fees, cart);
      match reply
      case Refused(e) =>
        SubmitOutcome(Some(ServerRefused(Strings.OrElse(e, FailedMessage))), Some(payload), storage, None)
      case Accepted(id) =>
        SubmitOutcome(None, Some(payload), CartStore.ClearCart(storage).storage, Some("/orders/success?orderId=" + id))
  }

  /** A payload from a non-empty cart with a name and a phone passes the
      server's required-field check, whichever fulfillment was chosen. */
  lemma PayloadPassesServerCheck(userId: string, form: CheckoutForm, fees: FeeState, cart: CartStore.Cart)
    requires userId != "" && form.customerName != "" && form.customerPhone != "" && |cart.items| > 0
    ensures OrdersApi.HasRequiredFields(OrderPayload(userId, form, fees, cart))
    ensures OrdersApi.HeaderInsert(OrderPayload(userId, form, fees, cart)).Some?
  {
    var p := OrderPayload(userId, form, fees, cart);
    assert FulfillmentName(form.fulfillment) != "";
    assert ParseFulfillment(FulfillmentName(form.fulfillment)) == Some(form.fulfillment);
  }

  /** The fee that is sent is the priced fee: for delivery, the fee state
      the effect last computed for the same form is the rounded fee of the
      picked distance; for pickup it is 0. */
  lemma SentFeeIsPriced(prev: FeeState, user: Option<string>, form: CheckoutForm, distance: real,
                        cart: CartStore.Cart, storage: CartStore.Storage, reply: ServerReply,
                        cfg: Delivery.FeeConfig, maxRadiusKm: real)
    ensures var fees := FeeEffect(prev, form, distance, cart.total, cfg, maxRadiusKm);
      var o := Submit(user, form, fees, cart, storage, reply);
      o.sent.Some? ==>
        && (form.fulfillment == Pickup ==> o.sent.value.deliveryFee == Some(0.0))
        && (form.fulfillment == Delivery ==>
              o.sent.value.deliveryFee == Some(Delivery.DeliveryFee(cfg, distance, cart.total, form.express) as real))
        && o.sent.value.total == cart.total + o.sent.value.deliveryFee.value
  {
  }

  /** What the checkout sends is what the orders route stores: a sent order
      from a non-empty cart with a name and a phone, which the database
      accepts, is created with one item row per cart line, in cart order,
      each carrying the line's product and quantity. */
  lemma SubmittedOrderIsStored(user: Option<string>, form: CheckoutForm, fees: FeeState, cart: CartStore.Cart,
                               storage: CartStore.Storage, reply: ServerReply, store: OrdersApi.OrderStore,
                               session: string, adminEmail: string, backend: OrdersApi.PostBackend)
    requires user.Some? && user.value != "" && form.customerName != "" && form.customerPhone != ""
    requires |cart.items| > 0 && backend.header.Some? && backend.itemsInserted
    ensures var o := Submit(user, form, fees, cart, storage, reply);
      o.sent.Some? ==>
        var out := OrdersApi.OrdersPost(store, Some(session), o.sent, adminEmail, backend);
        && out.response.Created?
        && |out.store.items| == |store.items| + |cart.items|
        && forall i :: 0 <= i < |cart.items| ==>
             && out.store.items[|store.items| + i].orderId == out.response.order.id
             && out.store.items[|store.items| + i].productId == cart.items[i].product.id
             && out.store.items[|store.items| + i].quantity == cart.items[i].quantity
  {
    var o := Submit(user, form, fees, cart, storage, reply);
    if o.sent.Some? {
      var p := OrderPayload(user.value, form, fees, cart);
      PayloadPassesServerCheck(user.value, form, fees, cart);
      var out := OrdersApi.OrdersPost(store, Some(session), o.sent, adminEmail, backend);
      var rows := OrdersApi.ItemRows(out.response.order.id, Snapshots(cart.items));
      assert out.store.items == store.items + rows;
      forall i | 0 <= i < |cart.items|
        ensures out.store.items[|store.items| + i] == rows[i]
      {
      }
    }
  }
}
