/** The orders API (app/api/orders/route.ts). The database is an explicit
    store of `orders` and `order_items` rows; the session, the parsed body
    and the outcome of every backend call are parameters. */
module OrdersApi {
  import opened Wrappers
  import opened Strings
  import opened Schema
  import Seqs

  datatype OrderStore = OrderStore(orders: seq<Order>, items: seq<OrderItem>)

  /** One line of the request's `items`. */
  datatype ItemRequest = ItemRequest(
    productId: string,
    productName: string,
    quantity: int,
    priceAtPurchase: real,
    subtotal: real)

  /** The `items` field of the body: an array of lines, or any other JSON
      value, which the route only sees through its truthiness and its
      `length` property (a string has one, a number has none). An absent
      or null field is `NotAList(false, None)`. */
  datatype ItemsField = ItemList(lines: seq<ItemRequest>) | NotAList(truthy: bool, length: Option<int>)

  /** `!items || items.length === 0` fails: the field is truthy and its
      length, if any, is not 0. An array is always truthy. */
  predicate ItemsPresent(f: ItemsField) {
    match f
    case ItemList(lines) => |lines| > 0
    case NotAList(truthy, length) => truthy && length != Some(0)
  }

  /** The JSON body of `POST`; `None` marks a field that is absent or null. */
  datatype OrderRequest = OrderRequest(
    userId: Option<string>,
    customerName: Option<string>,
    customerPhone: Option<string>,
    customerEmail: Option<string>,
    fulfillmentType: Option<string>,
    deliveryAddress: Option<string>,
    deliveryLat: Option<real>,
    deliveryLng: Option<real>,
    deliveryDistanceKm: Option<real>,
    subtotal: real,
    deliveryFee: Option<real>,
    expressDelivery: Option<bool>,
    total: real,
    customerNotes: Option<string>,
    items: ItemsField)

  /** What each backend step does: the header insert returns the values
      the database assigns (`None` for an error), then the item insert, the
      compensating delete and the e-mail succeed or fail. */
  datatype PostBackend = PostBackend(
    header: Option<ServerAssigned>,
    itemsInserted: bool,
    deleted: bool,
    emailThrows: bool)

  datatype PostResponse =
    | Unauthorized
    | MissingFields
    | CreateOrderFailed
    | CreateItemsFailed
    | Created(order: Order)
    | InternalError

  function PostStatus(r: PostResponse): int {
    match r
    case Unauthorized => 401
    case MissingFields => 400
    case CreateOrderFailed => 500
    case CreateItemsFailed => 500
    case Created(_) => 201
    case InternalError => 500
  }

  /** The notification handed to the mailer. */
  datatype OrderEmail = OrderEmail(order: Order, items: seq<OrderItem>, to: string, toAdmin: bool)

  datatype PostOutcome = PostOutcome(store: OrderStore, response: PostResponse, email: Option<OrderEmail>)

  /** The required-fields check. */
  predicate HasRequiredFields(req: OrderRequest) {
    && Truthy(req.userId) && Truthy(req.customerName) && Truthy(req.customerPhone)
    && Truthy(req.fulfillmentType) && ItemsPresent(req.items)
  }

  /** The header insert. A `fulfillment_type` outside the column's two
      values is rejected by the database, like any other insert error. */
  function HeaderInsert(req: OrderRequest): (ins: Option<OrderInsert>)
    requires HasRequiredFields(req)
    ensures ins.Some? <==> ParseFulfillment(req.fulfillmentType.value).Some?
    ensures ins.Some? ==>
      && ins.value.id.None? && ins.value.orderNumber.None? && ins.value.status.None?
      && ins.value.userId == req.userId.value
      && ins.value.customerName == req.customerName.value
      && ins.value.customerPhone == req.customerPhone.value
      && ins.value.customerEmail == req.customerEmail
      && FulfillmentName(ins.value.fulfillment) == req.fulfillmentType.value
      && ins.value.subtotal == req.subtotal && ins.value.deliveryFee == req.deliveryFee
      && ins.value.total == req.total && ins.value.expressDelivery == req.expressDelivery
      && ins.value.customerNotes == req.customerNotes && ins.value.adminNotes.None?
  {
    var f := ParseFulfillment(req.fulfillmentType.value);
    if f.None? then None
    else Some(OrderInsert(
      None, None, req.userId.value, req.customerName.value, req.customerPhone.value,
      req.customerEmail, f.value, req.deliveryAddress, req.deliveryLat, req.deliveryLng,
      req.deliveryDistanceKm, req.subtotal, req.deliveryFee, req.expressDelivery, req.total,
      None, req.customerNotes, None))
  }

  /** `orderItems`: one row per requested line, for the new order. */
  function ItemRows(orderId: string, items: seq<ItemRequest>): (rows: seq<OrderItem>)
    ensures |rows| == |items|
    ensures forall i :: 0 <= i < |items| ==>
      && rows[i].orderId == orderId
      && rows[i].productId == items[i].productId
      && rows[i].productName == items[i].productName
      && rows[i].quantity == items[i].quantity
      && rows[i].priceAtPurchase == items[i].priceAtPurchase
      && rows[i].subtotal == items[i].subtotal
  {
    seq(|items|, i requires 0 <= i < |items| =>
      OrderItem(orderId, items[i].productId, items[i].productName, items[i].quantity,
                items[i].priceAtPurchase, items[i].subtotal))
  }

  /** Deletes the order rows with the given id. */
  function DeleteOrder(orders: seq<Order>, id: string): (r: seq<Order>)
    ensures forall o :: o in r <==> o in orders && o.id != id
  {
    Seqs.Filter(orders, (o: Order) => o.id != id)
  }

  /** The header insert went through: the body passed the check, the
      database accepted the row and returned its assigned values. */
  predicate HeaderWritten(req: OrderRequest, backend: PostBackend) {
    HasRequiredFields(req) && HeaderInsert(req).Some? && backend.header.Some?
  }

  /** The `orders` row the insert returns. */
  function NewRow(req: OrderRequest, backend: PostBackend): (row: Order)
    requires HeaderWritten(req, backend)
    ensures row.id == backend.header.value.id && row.userId == req.userId.value
  {
    InsertedOrder(HeaderInsert(req).value, backend.header.value)
  }

  /** `POST`. */
  function OrdersPost(store: OrderStore, session: Option<string>, body: Option<OrderRequest>,
                      adminEmail: string, backend: PostBackend): (out: PostOutcome)
    // refused requests write nothing and send nothing
    ensures session.None? ==> out == PostOutcome(store, Unauthorized, None)
    ensures session.Some? && body.Some? && !HasRequiredFields(body.value) ==>
      out == PostOutcome(store, MissingFields, None)
    ensures session.Some? && body.None? ==> out == PostOutcome(store, InternalError, None)
    ensures session.Some? && body.Some? && HasRequiredFields(body.value) && !HeaderWritten(body.value, backend) ==>
      out == PostOutcome(store, CreateOrderFailed, None)
    ensures out.response == CreateOrderFailed ==> out.store == store && out.email.None?
    // once the header is in, the answer follows the item step
    ensures session.Some? && body.Some? && HeaderWritten(body.value, backend) ==>
      var req := body.value;
      var row := NewRow(req, backend);
      var withHeader := OrderStore(store.orders + [row], store.items);
      && (req.items.NotAList? ==> out == PostOutcome(withHeader, InternalError, None))
      && (req.items.ItemList? && !backend.itemsInserted ==>
            && out.response == CreateItemsFailed && out.email.None?
            && out.store == (if backend.deleted then OrderStore(DeleteOrder(withHeader.orders, row.id), store.items)
                             else withHeader))
      && (req.items.ItemList? && backend.itemsInserted ==> out.response == Created(row))
    // no item rows are written unless the order was created
    ensures !out.response.Created? ==> out.store.items == store.items
    // a created order: the header as sent plus one row per item, and a notification
    ensures out.response.Created? ==>
      && session.Some? && body.Some? && HasRequiredFields(body.value)
      && backend.header.Some? && backend.itemsInserted && body.value.items.ItemList?
      && var req := body.value;
         var row := out.response.order;
         && HeaderInsert(req).Some?
         && row == InsertedOrder(HeaderInsert(req).value, backend.header.value)
         && out.store == OrderStore(store.orders + [row], store.items + ItemRows(row.id, req.items.lines))
         && out.email == Some(OrderEmail(row, ItemRows(row.id, req.items.lines),
                                         OrElse(req.customerEmail, adminEmail), true))
  {
    if session.None? then PostOutcome(store, Unauthorized, None)
    else if body.None? then PostOutcome(store, InternalError, None)
    else
      var req := body.value;
      if !HasRequiredFields(req) then PostOutcome(store, MissingFields, None)
      else
        var ins := HeaderInsert(req);
        if ins.None? || backend.header.None? then PostOutcome(store, CreateOrderFailed, None)
        else
          var row := InsertedOrder(ins.value, backend.header.value);
          var withHeader := store.(orders := store.orders + [row]);
          match req.items
          case NotAList(_, _) =>
            // `items.map` throws: the outer `catch` answers, the header stays
            PostOutcome(withHeader, InternalError, None)
          case ItemList(lines) =>
            var rows := ItemRows(row.id, lines);
            if !backend.itemsInserted then
              var after := if backend.deleted then withHeader.(orders := DeleteOrder(withHeader.orders, row.id))
                           else withHeader;
              PostOutcome(after, CreateItemsFailed, None)
            else
              var email := OrderEmail(row, rows, OrElse(req.customerEmail, adminEmail), true);
              PostOutcome(withHeader.(items := withHeader.items + rows), Created(row), Some(email))
  }

  /** The amounts are stored exactly as the client sent them: the server
      recomputes neither the subtotal, the fee nor the total. */
  lemma AmountsAsSent(store: OrderStore, uid: string, req: OrderRequest, adminEmail: string, backend: PostBackend)
    requires OrdersPost(store, Some(uid), Some(req), adminEmail, backend).response.Created?
    ensures var row := OrdersPost(store, Some(uid), Some(req), adminEmail, backend).response.order;
      && row.subtotal == req.subtotal && row.total == req.total
      && row.deliveryFee == req.deliveryFee.GetOr(backend.header.value.defaultDeliveryFee)
      && row.userId == req.userId.value
  {
  }

  /** The order's `user_id` comes from the body, not from the session: a
      signed-in user can file an order under any user id. */
  lemma OwnerFromBody(store: OrderStore, uid: string, req: OrderRequest, adminEmail: string, backend: PostBackend)
    requires HasRequiredFields(req) && req.userId.value != uid
    requires ParseFulfillment(req.fulfillmentType.value).Some? && backend.header.Some? && backend.itemsInserted
    requires req.items.ItemList?
    ensures OrdersPost(store, Some(uid), Some(req), adminEmail, backend).response.Created?
    ensures OrdersPost(store, Some(uid), Some(req), adminEmail, backend).response.order.userId != uid
  {
  }

  /** A failed e-mail changes neither the stored rows nor the answer. */
  lemma EmailFailureIgnored(store: OrderStore, session: Option<string>, body: Option<OrderRequest>,
                            adminEmail: string, backend: PostBackend)
    ensures OrdersPost(store, session, body, adminEmail, backend.(emailThrows := true))
         == OrdersPost(store, session, body, adminEmail, backend.(emailThrows := false))
  {
  }

  /** When the item insert fails and the compensating delete succeeds, the
      store is back to what it was, provided the new id was not in use. */
  lemma RollbackRestores(store: OrderStore, uid: string, req: OrderRequest, adminEmail: string, backend: PostBackend)
    requires HasRequiredFields(req) && ParseFulfillment(req.fulfillmentType.value).Some?
    requires backend.header.Some? && !backend.itemsInserted && backend.deleted && req.items.ItemList?
    requires forall i :: 0 <= i < |store.orders| ==> store.orders[i].id != backend.header.value.id
    ensures OrdersPost(store, Some(uid), Some(req), adminEmail, backend) == PostOutcome(store, CreateItemsFailed, None)
  {
    var row := InsertedOrder(HeaderInsert(req).value, backend.header.value);
    var p := (o: Order) => o.id != row.id;
    Seqs.FilterAppend(store.orders, [row], p);
    Seqs.FilterKeepsAll(store.orders, p);
    assert Seqs.Filter([row], p) == [];
  }

  /** When the compensating delete fails too, the order header stays
      behind without any item rows. */
  lemma FailedRollbackLeavesHeader(store: OrderStore, uid: string, req: OrderRequest, adminEmail: string, backend: PostBackend)
    requires HasRequiredFields(req) && ParseFulfillment(req.fulfillmentType.value).Some?
    requires backend.header.Some? && !backend.itemsInserted && !backend.deleted && req.items.ItemList?
    ensures var out := OrdersPost(store, Some(uid), Some(req), adminEmail, backend);
      && out.response == CreateItemsFailed
      && out.store.items == store.items
      && |out.store.orders| == |store.orders| + 1
      && out.store.orders[|store.orders|].id == backend.header.value.id
  {
  }

  /** An `items` value that passes the check but is not an array, such
      as the string "abc", gets the header written and then the 500 answer
      of the outer `catch`: the order stays behind with no item rows, and
      the compensating delete never runs. */
  lemma NonArrayItemsLeaveHeader(store: OrderStore, uid: string, req: OrderRequest, adminEmail: string, backend: PostBackend)
    requires HasRequiredFields(req) && ParseFulfillment(req.fulfillmentType.value).Some?
    requires backend.header.Some? && req.items.NotAList?
    ensures var out := OrdersPost(store, Some(uid), Some(req), adminEmail, backend);
      && out.response == InternalError && PostStatus(out.response) == 500
      && out.store.items == store.items && out.email.None?
      && |out.store.orders| == |store.orders| + 1
      && out.store.orders[|store.orders|].id == backend.header.value.id
  {
  }

  // ---------------------------------------------------------------------
  // GET
  // ---------------------------------------------------------------------

  datatype OrderWithItems = OrderWithItems(order: Order, items: seq<OrderItem>)

  datatype GetResponse = GetUnauthorized | FetchFailed | OrderList(orders: seq<OrderWithItems>)

  predicate NewestFirst(s: seq<Order>) {
    forall i, j :: 0 <= i < j < |s| ==> s[i].createdAt >= s[j].createdAt
  }

  /** Inserts an order before the first one that is not newer. */
  function InsertNewest(o: Order, s: seq<Order>): (r: seq<Order>)
    requires NewestFirst(s)
    ensures multiset(r) == multiset(s) + multiset{o}
    ensures NewestFirst(r)
  {
    if |s| == 0 then [o]
    else if o.createdAt >= s[0].createdAt then [o] + s
    else
      var t := InsertNewest(o, s[1..]);
      assert s == [s[0]] + s[1..];
      HeadStaysNewest(s[0], o, s[1..], t);
      [s[0]] + t
  }

  /** The head of a newest-first list that is newer than `o` stays ahead
      of any rearrangement of the rest with `o` added. */
  lemma HeadStaysNewest(h: Order, o: Order, rest: seq<Order>, t: seq<Order>)
    requires NewestFirst([h] + rest) && NewestFirst(t)
    requires h.createdAt > o.createdAt
    requires multiset(t) == multiset(rest) + multiset{o}
    ensures NewestFirst([h] + t)
  {
    forall i | 0 <= i < |t| ensures h.createdAt >= t[i].createdAt {
      assert t[i] in multiset(t);
      if t[i] != o {
        assert t[i] in multiset(rest) + multiset{o};
        assert t[i] in multiset(rest);
        var k :| 0 <= k < |rest| && rest[k] == t[i];
        assert ([h] + rest)[0] == h && ([h] + rest)[k + 1] == rest[k];
      }
    }
  }

  /** `order('created_at', { ascending: false })`, stable for equal times. */
  function SortNewest(s: seq<Order>): (r: seq<Order>)
    ensures multiset(r) == multiset(s)
    ensures NewestFirst(r)
  {
    if |s| == 0 then []
    else
      assert s == [s[0]] + s[1..];
      InsertNewest(s[0], SortNewest(s[1..]))
  }

  /** The embedded `order_items` of one order. */
  function ItemsOf(items: seq<OrderItem>, orderId: string): (r: seq<OrderItem>)
    ensures forall it :: it in r <==> it in items && it.orderId == orderId
  {
    Seqs.Filter(items, (it: OrderItem) => it.orderId == orderId)
  }

  function WithItems(orders: seq<Order>, items: seq<OrderItem>): (r: seq<OrderWithItems>)
    ensures |r| == |orders|
    ensures forall i :: 0 <= i < |r| ==> r[i] == OrderWithItems(orders[i], ItemsOf(items, orders[i].id))
  {
    seq(|orders|, i requires 0 <= i < |orders| => OrderWithItems(orders[i], ItemsOf(items, orders[i].id)))
  }

  function OwnOrders(orders: seq<Order>, uid: string): (r: seq<Order>)
    ensures forall o :: o in r <==> o in orders && o.userId == uid
  {
    Seqs.Filter(orders, (o: Order) => o.userId == uid)
  }

  /** `GET`: the session user's orders, newest first, each with its items. */
  function OrdersGet(store: OrderStore, session: Option<string>, fetched: bool): (r: GetResponse)
    ensures session.None? <==> r == GetUnauthorized
    ensures session.Some? && !fetched <==> r == FetchFailed
    ensures r.OrderList? ==>
      var list := r.orders;
      && (forall i :: 0 <= i < |list| ==> list[i].order.userId == session.value)
      && (forall i, j :: 0 <= i < j < |list| ==> list[i].order.createdAt >= list[j].order.createdAt)
      && (forall i :: 0 <= i < |list| ==> list[i].items == ItemsOf(store.items, list[i].order.id))
      && multiset(seq(|list|, i requires 0 <= i < |list| => list[i].order))
           == multiset(OwnOrders(store.orders, session.value))
  {
    if session.None? then GetUnauthorized
    else if !fetched then FetchFailed
    else
      var own := SortNewest(OwnOrders(store.orders, session.value));
      var list := WithItems(own, store.items);
      ListedOrders(store, session.value, own, list);
      OrderList(list)
  }

  /** The sorted own orders, with their items attached, are the user's,
      newest first, a rearrangement of the user's orders. */
  lemma ListedOrders(store: OrderStore, uid: string, own: seq<Order>, list: seq<OrderWithItems>)
    requires own == SortNewest(OwnOrders(store.orders, uid))
    requires list == WithItems(own, store.items)
    ensures forall i :: 0 <= i < |list| ==> list[i].order.userId == uid
    ensures forall i, j :: 0 <= i < j < |list| ==> list[i].order.createdAt >= list[j].order.createdAt
    ensures forall i :: 0 <= i < |list| ==> list[i].items == ItemsOf(store.items, list[i].order.id)
    ensures multiset(seq(|list|, i requires 0 <= i < |list| => list[i].order))
              == multiset(OwnOrders(store.orders, uid))
  {
    OrdersOfList(own, store.items, list);
    SortedOwnAreOwn(store, uid, own);
  }

  /** Attaching items keeps the orders and their order. */
  lemma OrdersOfList(own: seq<Order>, items: seq<OrderItem>, list: seq<OrderWithItems>)
    requires list == WithItems(own, items)
    ensures seq(|list|, i requires 0 <= i < |list| => list[i].order) == own
  {
    assert forall i :: 0 <= i < |list| ==> list[i].order == own[i];
  }

  /** Sorting the user's orders brings in no one else's. */
  lemma SortedOwnAreOwn(store: OrderStore, uid: string, own: seq<Order>)
    requires own == SortNewest(OwnOrders(store.orders, uid))
    ensures forall i :: 0 <= i < |own| ==> own[i].userId == uid
  {
    forall i | 0 <= i < |own| ensures own[i].userId == uid {
      assert own[i] in multiset(own);
    }
  }

  /** Every order of the user is listed, and no one else's. */
  lemma GetListsExactlyOwn(store: OrderStore, uid: string, o: Order)
    requires o in store.orders
    ensures var r := OrdersGet(store, Some(uid), true);
      (exists i :: 0 <= i < |r.orders| && r.orders[i].order == o) <==> o.userId == uid
  {
    var r := OrdersGet(store, Some(uid), true);
    var own := OwnOrders(store.orders, uid);
    var sorted := SortNewest(own);
    assert forall i :: 0 <= i < |r.orders| ==> r.orders[i].order == sorted[i];
    if o.userId == uid {
      assert o in multiset(own);
      assert o in sorted;
      var i :| 0 <= i < |sorted| && sorted[i] == o;
      assert r.orders[i].order == o;
    }
  }
}
