/** The admin order dashboard (app/admin/page.tsx): the access gate, the
    status and search filter over the fetched orders, and the local update
    after a status change. The signed-in user, the configured admin e-mail
    and the outcome of the database update are inputs. */
module AdminDashboard {
  import opened Wrappers
  import opened Strings
  import opened Schema
  import Seqs

  // ---------------------------------------------------------------------
  // Access gate
  // ---------------------------------------------------------------------

  /** The signed-in user as the auth client reports it; `email` is absent
      for an account created with a phone number. */
  datatype User = User(id: string, email: Option<string>)

  datatype Gate = SignInFirst(to: string) | SendHome(to: string) | LoadOrders

  const SignInForAdmin := "/auth/signin?redirect=/admin"

  /** The `checkAuth` effect. `adminEmail` is the configured admin address,
      absent when it is not set; the comparison is strict equality, so an
      absent address equals an absent address. */
  function AdminGate(user: Option<User>, adminEmail: Option<string>): (g: Gate)
    ensures user.None? <==> g == SignInFirst(SignInForAdmin)
    ensures g == LoadOrders <==> user.Some? && user.value.email == adminEmail
    ensures g.SendHome? ==> g.to == "/"
  {
    if user.None? then SignInFirst(SignInForAdmin)
    else if user.value.email != adminEmail then SendHome("/")
    else LoadOrders
  }

  /** With the admin address set, only the user with exactly that address
      gets the orders loaded. */
  lemma OnlyAdminLoads(user: Option<User>, admin: string)
    ensures AdminGate(user, Some(admin)) == LoadOrders <==> user.Some? && user.value.email == Some(admin)
  {
  }

  /** With the admin address unset, any signed-in user without an e-mail
      address (a phone account) passes the gate. */
  lemma UnsetAdminAdmitsPhoneAccounts(id: string)
    ensures AdminGate(Some(User(id, None)), None) == LoadOrders
  {
  }

  // ---------------------------------------------------------------------
  // Filtering
  // ---------------------------------------------------------------------

  /** The status dropdown: `'all'` or one status name. */
  predicate StatusMatches(o: Order, statusFilter: string) {
    StatusName(o.status) == statusFilter
  }

  /** The search test against an already lower-cased query: the order
      number and the customer name are lower-cased, the phone is not. */
  predicate SearchMatches(o: Order, query: string) {
    || Contains(ToLower(o.orderNumber), query)
    || Contains(ToLower(o.customerName), query)
    || Contains(o.customerPhone, query)
  }

  /** Whether an order is listed under the given filter and search box. */
  predicate Shown(o: Order, statusFilter: string, searchQuery: string) {
    && (statusFilter != "all" ==> StatusMatches(o, statusFilter))
    && (searchQuery != "" ==> SearchMatches(o, ToLower(searchQuery)))
  }

  /** The filter effect: the status filter, then the search filter. */
  function FilterOrders(orders: seq<Order>, statusFilter: string, searchQuery: string): (r: seq<Order>)
    ensures r == Seqs.Filter(orders, o => Shown(o, statusFilter, searchQuery))
    ensures Seqs.IsSubseq(r, orders)
    ensures forall o :: o in r <==> o in orders && Shown(o, statusFilter, searchQuery)
  {
    var byStatus := if statusFilter != "all" then Seqs.Filter(orders, o => StatusMatches(o, statusFilter)) else orders;
    var query := ToLower(searchQuery);
    var r := if searchQuery != "" then Seqs.Filter(byStatus, o => SearchMatches(o, query)) else byStatus;
    Seqs.FilterOptional(orders, statusFilter != "all", o => StatusMatches(o, statusFilter),
                        searchQuery != "", o => SearchMatches(o, query), o => Shown(o, statusFilter, searchQuery));
    Seqs.FilterIsSubseq(orders, o => Shown(o, statusFilter, searchQuery));
    r
  }

  /** `'all'` with an empty search box lists every order, in order. */
  lemma NoFilterListsAll(orders: seq<Order>)
    ensures FilterOrders(orders, "all", "") == orders
  {
  }

  /** A status other than `'all'` lists exactly the orders with that status. */
  lemma StatusFilterExact(orders: seq<Order>, s: OrderStatus)
    ensures FilterOrders(orders, StatusName(s), "") == Seqs.Filter(orders, (o: Order) => o.status == s)
  {
    assert StatusName(s) != "all" by { StatusNamesRoundTrip(s); }
    forall o ensures Shown(o, StatusName(s), "") == (o.status == s) {
      StatusNamesRoundTrip(o.status);
      StatusNamesRoundTrip(s);
    }
    Seqs.FilterSame(orders, o => Shown(o, StatusName(s), ""), (o: Order) => o.status == s);
  }

  /** A filter value that names no status lists nothing. */
  lemma UnknownStatusListsNothing(orders: seq<Order>, statusFilter: string, searchQuery: string)
    requires statusFilter != "all" && ParseStatus(statusFilter).None?
    ensures FilterOrders(orders, statusFilter, searchQuery) == []
  {
    forall i | 0 <= i < |orders| ensures !Shown(orders[i], statusFilter, searchQuery) {
      StatusNamesRoundTrip(orders[i].status);
    }
    Seqs.FilterDropsAll(orders, o => Shown(o, statusFilter, searchQuery));
  }

  /** The search box ignores letter case: two queries that lower-case to
      the same text list the same orders. */
  lemma SearchIgnoresCase(orders: seq<Order>, statusFilter: string, q1: string, q2: string)
    requires ToLower(q1) == ToLower(q2)
    ensures FilterOrders(orders, statusFilter, q1) == FilterOrders(orders, statusFilter, q2)
  {
    assert |q1| == |ToLower(q1)| && |q2| == |ToLower(q2)|;
    Seqs.FilterSame(orders, o => Shown(o, statusFilter, q1), o => Shown(o, statusFilter, q2));
  }

  /** An order whose name contains the query, in any letter case, is found
      when its status passes. */
  lemma NameSearchFinds(orders: seq<Order>, o: Order, statusFilter: string, name: string)
    requires o in orders && name != ""
    requires Contains(ToLower(o.customerName), ToLower(name))
    requires statusFilter == "all" || StatusMatches(o, statusFilter)
    ensures o in FilterOrders(orders, statusFilter, name)
  {
  }

  /** The phone is matched against the lower-cased query, without
      lower-casing the phone: for any order whose phone holds no lower-case
      letter, a query with an upper-case letter never matches the phone,
      even when the phone holds the query as typed, so the order is listed
      only through its number or name. */
  lemma PhoneSearchIsLowerCased(o: Order, statusFilter: string, q: string, k: nat)
    requires k < |q| && 'A' <= q[k] <= 'Z'
    requires forall i :: 0 <= i < |o.customerPhone| ==> !('a' <= o.customerPhone[i] <= 'z')
    ensures !Contains(o.customerPhone, ToLower(q))
    ensures Shown(o, statusFilter, q) <==>
      && (statusFilter != "all" ==> StatusMatches(o, statusFilter))
      && (Contains(ToLower(o.orderNumber), ToLower(q)) || Contains(ToLower(o.customerName), ToLower(q)))
  {
    NoLowerNoMatch(o.customerPhone, ToLower(q), k);
  }

  /** A text without lower-case letters contains no text that has one. */
  lemma {:induction false} NoLowerNoMatch(s: string, sub: string, k: nat)
    requires k < |sub| && 'a' <= sub[k] <= 'z'
    requires forall i :: 0 <= i < |s| ==> !('a' <= s[i] <= 'z')
    ensures !Contains(s, sub)
    decreases |s|
  {
    if |sub| <= |s| {
      assert s[k] != sub[k];
    }
    if |s| > 0 {
      NoLowerNoMatch(s[1..], sub, k);
    }
  }

  // ---------------------------------------------------------------------
  // Status change
  // ---------------------------------------------------------------------

  /** `updateOrderStatus`'s effect on the local list. `updated` is whether
      the database update succeeded; the new status is one of the seven
      dropdown values. */
  function UpdateOrderStatus(orders: seq<Order>, orderId: string, newStatus: OrderStatus, updated: bool): (r: seq<Order>)
    ensures !updated ==> r == orders
    ensures |r| == |orders|
    ensures updated ==> forall i :: 0 <= i < |orders| ==>
      if orders[i].id == orderId then r[i] == orders[i].(status := newStatus) else r[i] == orders[i]
  {
    if updated then Seqs.MapWhere(orders, (o: Order) => o.id == orderId, (o: Order) => o.(status := newStatus))
    else orders
  }

  /** Only the status of the chosen order changes: each order keeps its
      place, its id and every other field. */
  lemma UpdateChangesOnlyStatus(orders: seq<Order>, orderId: string, newStatus: OrderStatus, updated: bool, i: int)
    requires 0 <= i < |orders|
    ensures var r := UpdateOrderStatus(orders, orderId, newStatus, updated);
      r[i].(status := orders[i].status) == orders[i]
      && (r[i].status != orders[i].status ==> updated && orders[i].id == orderId && r[i].status == newStatus)
  {
  }

  /** There is no transition rule: any status can follow any status. */
  lemma AnyStatusFromAny(o: Order, from: OrderStatus, to: OrderStatus)
    ensures UpdateOrderStatus([o.(status := from)], o.id, to, true) == [o.(status := to)]
  {
  }

  /** The last successful change wins. */
  lemma LastChangeWins(orders: seq<Order>, orderId: string, a: OrderStatus, b: OrderStatus)
    ensures UpdateOrderStatus(UpdateOrderStatus(orders, orderId, a, true), orderId, b, true)
         == UpdateOrderStatus(orders, orderId, b, true)
  {
  }

  /** After a successful change, the chosen order is listed under its new
      status and no longer under a different old one. */
  lemma ChangedOrderMovesTab(orders: seq<Order>, o: Order, to: OrderStatus)
    requires o in orders
    ensures var r := UpdateOrderStatus(orders, o.id, to, true);
      o.(status := to) in FilterOrders(r, StatusName(to), "")
  {
    var i :| 0 <= i < |orders| && orders[i] == o;
    var r := UpdateOrderStatus(orders, o.id, to, true);
    assert r[i] == o.(status := to);
    StatusNamesRoundTrip(to);
  }
}
