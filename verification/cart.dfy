/** The shopping cart kept in browser storage (lib/utils/cart.ts). Every
    operation reads the stored cart, changes it and writes it back; here
    the storage is an explicit value passed in and returned. */
module CartStore {
  import opened Wrappers
  import opened Schema
  import opened Seqs

  datatype CartItem = CartItem(product: Product, quantity: int)

  datatype Cart = Cart(items: seq<CartItem>, total: real)

  const EmptyCart := Cart([], 0.0)

  /** What the storage slot `cart` holds: a parsed cart, or text that does
      not parse (including the empty string). */
  datatype Slot = Saved(cart: Cart) | Unparsable

  /** The browser storage, or `NoWindow` during server-side rendering. */
  datatype Storage = NoWindow | Browser(slot: Option<Slot>)

  /** Result of an operation: the storage afterwards and the cart returned. */
  datatype CartResult = CartResult(storage: Storage, cart: Cart)

  // ---------------------------------------------------------------------
  // Totals
  // ---------------------------------------------------------------------

  function LineAmount(it: CartItem): real {
    it.product.price * it.quantity as real
  }

  /** `calculateTotal`: price times quantity, summed from the left. */
  function ItemsTotal(items: seq<CartItem>): real {
    if |items| == 0 then 0.0 else ItemsTotal(items[..|items| - 1]) + LineAmount(items[|items| - 1])
  }

  /** The sum over quantities, as `getItemCount` computes it. */
  function QuantitySum(items: seq<CartItem>): int {
    if |items| == 0 then 0 else QuantitySum(items[..|items| - 1]) + items[|items| - 1].quantity
  }

  /** The total of two runs of lines is the sum of their totals. */
  lemma {:induction false} ItemsTotalAppend(a: seq<CartItem>, b: seq<CartItem>)
    ensures ItemsTotal(a + b) == ItemsTotal(a) + ItemsTotal(b)
    decreases |b|
  {
    if |b| > 0 {
      assert (a + b)[..|a + b| - 1] == a + b[..|b| - 1];
      ItemsTotalAppend(a, b[..|b| - 1]);
    } else {
      assert a + b == a;
    }
  }

  /** Replacing one line changes the total by the difference of the lines. */
  lemma ItemsTotalUpdate(items: seq<CartItem>, i: nat, it: CartItem)
    requires i < |items|
    ensures ItemsTotal(items[i := it]) == ItemsTotal(items) - LineAmount(items[i]) + LineAmount(it)
  {
    var u := items[i := it];
    assert items == items[..i] + [items[i]] + items[i + 1..];
    assert u == items[..i] + [it] + items[i + 1..];
    ItemsTotalAppend(items[..i] + [items[i]], items[i + 1..]);
    ItemsTotalAppend(items[..i], [items[i]]);
    ItemsTotalAppend(items[..i] + [it], items[i + 1..]);
    ItemsTotalAppend(items[..i], [it]);
    assert ItemsTotal([items[i]]) == LineAmount(items[i]) by { assert [items[i]][..0] == []; }
    assert ItemsTotal([it]) == LineAmount(it) by { assert [it][..0] == []; }
  }

  /** The cart invariant: the stored total is the sum of its lines. */
  predicate Consistent(c: Cart) {
    c.total == ItemsTotal(c.items)
  }

  /** No product appears on two lines. */
  predicate UniqueIds(items: seq<CartItem>) {
    forall i, j :: 0 <= i < j < |items| ==> items[i].product.id != items[j].product.id
  }

  predicate HasProduct(items: seq<CartItem>, productId: string) {
    exists i :: 0 <= i < |items| && items[i].product.id == productId
  }

  /** `findIndex` on the product id: the first matching line, if any. */
  function FindLine(items: seq<CartItem>, productId: string): (r: Option<nat>)
    ensures r.Some? ==>
      && r.value < |items| && items[r.value].product.id == productId
      && (forall j :: 0 <= j < r.value ==> items[j].product.id != productId)
    ensures r.None? <==> !HasProduct(items, productId)
  {
    if |items| == 0 then None
    else if items[0].product.id == productId then Some(0)
    else
      match FindLine(items[1..], productId)
      case None =>
        assert forall j :: 1 <= j < |items| ==> items[1..][j - 1] == items[j];
        None
      case Some(k) => Some(k + 1)
  }

  // ---------------------------------------------------------------------
  // Storage
  // ---------------------------------------------------------------------

  /** `getCart`: the stored cart, or the empty cart when there is no
      window, nothing stored, or the stored text does not parse. */
  function GetCart(st: Storage): (c: Cart)
    ensures (st.NoWindow? || st.slot.None? || st.slot.value.Unparsable?) ==> c == EmptyCart
    ensures st.Browser? && st.slot.Some? && st.slot.value.Saved? ==> c == st.slot.value.cart
  {
    match st
    case NoWindow => EmptyCart
    case Browser(slot) =>
      match slot
      case Some(Saved(c)) => c
      case _ => EmptyCart
  }

  /** `setCart`: stores the cart; does nothing without a window. */
  function SetCart(st: Storage, c: Cart): (st': Storage)
    ensures st.NoWindow? ==> st' == NoWindow
    ensures st.Browser? ==> GetCart(st') == c
  {
    match st
    case NoWindow => NoWindow
    case Browser(_) => Browser(Some(Saved(c)))
  }

  /** Storing and reading back gives the stored cart. */
  lemma StoreThenRead(c: Cart)
    ensures GetCart(SetCart(Browser(None), c)) == c
  {
  }

  // ---------------------------------------------------------------------
  // Operations
  // ---------------------------------------------------------------------

  /** `addItem`: a product already in the cart has `quantity` added to its
      first line (keeping the product snapshot on that line); otherwise a
      new line is appended. The total is recomputed and the cart stored. */
  function AddItem(st: Storage, product: Product, quantity: int): (r: CartResult)
    ensures Consistent(r.cart)
    ensures r.storage == SetCart(st, r.cart)
    ensures var items := GetCart(st).items;
      HasProduct(items, product.id) ==>
        && |r.cart.items| == |items|
        && var i := FindLine(items, product.id).value;
        && r.cart.items[i] == items[i].(quantity := items[i].quantity + quantity)
        && forall j :: 0 <= j < |items| && j != i ==> r.cart.items[j] == items[j]
    ensures var items := GetCart(st).items;
      !HasProduct(items, product.id) ==> r.cart.items == items + [CartItem(product, quantity)]
    ensures UniqueIds(GetCart(st).items) ==> UniqueIds(r.cart.items)
  {
    var items := AddedLines(GetCart(st).items, product, quantity);
    var c := Cart(items, ItemsTotal(items));
    CartResult(SetCart(st, c), c)
  }

  /** The lines after `addItem`, before the total is recomputed. */
  function AddedLines(items: seq<CartItem>, product: Product, quantity: int): seq<CartItem> {
    match FindLine(items, product.id)
    case Some(i) => items[i := items[i].(quantity := items[i].quantity + quantity)]
    case None => items + [CartItem(product, quantity)]
  }

  /** The unit price on the line an added product lands on: the price
      already in the cart when the product is there, else its own price. */
  function LandingPrice(items: seq<CartItem>, product: Product): real {
    match FindLine(items, product.id)
    case Some(i) => items[i].product.price
    case None => product.price
  }

  /** Adding `q` of a product raises a consistent cart's total by `q` times
      the price on the line it lands on. */
  lemma AddItemTotal(st: Storage, product: Product, quantity: int)
    requires Consistent(GetCart(st))
    ensures AddItem(st, product, quantity).cart.total
      == GetCart(st).total + LandingPrice(GetCart(st).items, product) * quantity as real
  {
    AddedLinesTotal(GetCart(st).items, product, quantity);
  }

  lemma Distribute(p: real, a: int, b: int)
    ensures p * (a + b) as real == p * a as real + p * b as real
  {
  }

  /** Adding to a line's quantity adds that many unit prices to its amount. */
  lemma LineAmountGrows(it: CartItem, quantity: int)
    ensures LineAmount(it.(quantity := it.quantity + quantity)) == LineAmount(it) + it.product.price * quantity as real
  {
    Distribute(it.product.price, it.quantity, quantity);
  }

  lemma AddedLinesTotal(items: seq<CartItem>, product: Product, quantity: int)
    ensures ItemsTotal(AddedLines(items, product, quantity))
      == ItemsTotal(items) + LandingPrice(items, product) * quantity as real
  {
    match FindLine(items, product.id)
    case Some(i) =>
      var it := items[i];
      var it' := it.(quantity := it.quantity + quantity);
      assert AddedLines(items, product, quantity) == items[i := it'];
      assert LandingPrice(items, product) == it.product.price;
      ItemsTotalUpdate(items, i, it');
      LineAmountGrows(it, quantity);
    case None =>
      ItemsTotalAppend(items, [CartItem(product, quantity)]);
      assert ItemsTotal([CartItem(product, quantity)]) == product.price * quantity as real by {
        assert [CartItem(product, quantity)][..0] == [];
      }
  }

  /** `removeItem`: drops every line of the product, keeps the others in
      order and untouched, recomputes the total and stores the cart. */
  function RemoveItem(st: Storage, productId: string): (r: CartResult)
    ensures Consistent(r.cart)
    ensures r.storage == SetCart(st, r.cart)
    ensures forall it :: it in r.cart.items <==> it in GetCart(st).items && it.product.id != productId
    ensures IsSubseq(r.cart.items, GetCart(st).items)
    ensures !HasProduct(r.cart.items, productId)
    ensures !HasProduct(GetCart(st).items, productId) ==> r.cart.items == GetCart(st).items
  {
    var cart := GetCart(st);
    var keep := (it: CartItem) => it.product.id != productId;
    var items := Filter(cart.items, keep);
    FilterIsSubseq(cart.items, keep);
    assert !HasProduct(cart.items, productId) ==> items == cart.items by {
      if !HasProduct(cart.items, productId) {
        FilterKeepsAll(cart.items, keep);
      }
    }
    assert forall i :: 0 <= i < |items| ==> keep(items[i]);
    var c := Cart(items, ItemsTotal(items));
    CartResult(SetCart(st, c), c)
  }

  /** `updateQuantity`: a quantity of zero or less removes the product;
      otherwise the first line of the product gets the new quantity and the
      cart is stored, and a product not in the cart leaves the cart as read
      and the storage as it was. */
  function UpdateQuantity(st: Storage, productId: string, quantity: int): (r: CartResult)
    ensures quantity <= 0 ==> r == RemoveItem(st, productId)
    ensures quantity > 0 && !HasProduct(GetCart(st).items, productId) ==>
      r.storage == st && r.cart == GetCart(st)
    ensures var items := GetCart(st).items;
      quantity > 0 && HasProduct(items, productId) ==>
        && Consistent(r.cart) && r.storage == SetCart(st, r.cart)
        && |r.cart.items| == |items|
        && var i := FindLine(items, productId).value;
        && r.cart.items[i] == items[i].(quantity := quantity)
        && forall j :: 0 <= j < |items| && j != i ==> r.cart.items[j] == items[j]
  {
    if quantity <= 0 then RemoveItem(st, productId)
    else
      var cart := GetCart(st);
      match FindLine(cart.items, productId)
      case None => CartResult(st, cart)
      case Some(i) =>
        var items := cart.items[i := cart.items[i].(quantity := quantity)];
        var c := Cart(items, ItemsTotal(items));
        CartResult(SetCart(st, c), c)
  }

  /** `clearCart`: stores and returns the empty cart. */
  function ClearCart(st: Storage): (r: CartResult)
    ensures r.cart.items == [] && r.cart.total == 0.0
    ensures Consistent(r.cart)
    ensures GetCart(r.storage) == EmptyCart
  {
    CartResult(SetCart(st, EmptyCart), EmptyCart)
  }

  /** `getItemCount`: the number of units in the stored cart. */
  function ItemCount(st: Storage): (n: int)
    ensures n == QuantitySum(GetCart(st).items)
    ensures GetCart(st).items == [] ==> n == 0
    ensures (forall i :: 0 <= i < |GetCart(st).items| ==> GetCart(st).items[i].quantity >= 0) ==> n >= 0
  {
    var items := GetCart(st).items;
    QuantitySumNonNeg(items);
    QuantitySum(items)
  }

  lemma {:induction false} QuantitySumNonNeg(items: seq<CartItem>)
    ensures (forall i :: 0 <= i < |items| ==> items[i].quantity >= 0) ==> QuantitySum(items) >= 0
  {
    if |items| > 0 {
      QuantitySumNonNeg(items[..|items| - 1]);
    }
  }

  /** The unit count of two runs of lines is the sum of their counts. */
  lemma {:induction false} QuantitySumAppend(a: seq<CartItem>, b: seq<CartItem>)
    ensures QuantitySum(a + b) == QuantitySum(a) + QuantitySum(b)
    decreases |b|
  {
    if |b| > 0 {
      assert (a + b)[..|a + b| - 1] == a + b[..|b| - 1];
      QuantitySumAppend(a, b[..|b| - 1]);
    } else {
      assert a + b == a;
    }
  }

  /** Replacing one line changes the unit count by the difference of the
      two lines' quantities. */
  lemma QuantitySumUpdate(items: seq<CartItem>, i: nat, it: CartItem)
    requires i < |items|
    ensures QuantitySum(items[i := it]) == QuantitySum(items) - items[i].quantity + it.quantity
  {
    var u := items[i := it];
    assert items == items[..i] + [items[i]] + items[i + 1..];
    assert u == items[..i] + [it] + items[i + 1..];
    QuantitySumAppend(items[..i] + [items[i]], items[i + 1..]);
    QuantitySumAppend(items[..i], [items[i]]);
    QuantitySumAppend(items[..i] + [it], items[i + 1..]);
    QuantitySumAppend(items[..i], [it]);
    assert QuantitySum([items[i]]) == items[i].quantity by { assert [items[i]][..0] == []; }
    assert QuantitySum([it]) == it.quantity by { assert [it][..0] == []; }
  }

  /** In the browser, adding `q` units of a product raises the item count
      by exactly `q`, whether the product lands on an existing line or on a
      new one; clearing brings the count to zero. */
  lemma AddItemCount(st: Storage, product: Product, quantity: int)
    requires st.Browser?
    ensures ItemCount(AddItem(st, product, quantity).storage) == ItemCount(st) + quantity
    ensures ItemCount(ClearCart(st).storage) == 0
  {
    AddedLinesCount(GetCart(st).items, product, quantity);
  }

  lemma AddedLinesCount(items: seq<CartItem>, product: Product, quantity: int)
    ensures QuantitySum(AddedLines(items, product, quantity)) == QuantitySum(items) + quantity
  {
    match FindLine(items, product.id)
    case Some(i) =>
      QuantitySumUpdate(items, i, items[i].(quantity := items[i].quantity + quantity));
    case None =>
      QuantitySumAppend(items, [CartItem(product, quantity)]);
      assert QuantitySum([CartItem(product, quantity)]) == quantity by {
        assert [CartItem(product, quantity)][..0] == [];
      }
  }

  /** Every operation that rewrites the cart leaves the total equal to the
      sum of its lines, and one that leaves it alone keeps a consistent cart
      consistent. */
  lemma OperationsKeepTotal(st: Storage, product: Product, productId: string, quantity: int)
    requires Consistent(GetCart(st))
    ensures Consistent(AddItem(st, product, quantity).cart)
    ensures Consistent(UpdateQuantity(st, productId, quantity).cart)
    ensures Consistent(RemoveItem(st, productId).cart)
    ensures Consistent(ClearCart(st).cart)
  {
  }

  /** Adding to a cart whose lines have distinct products keeps them
      distinct, and a quantity of zero or less in `updateQuantity` is the
      same as `removeItem`. */
  lemma UpdateNonPositiveRemoves(st: Storage, productId: string, quantity: int)
    requires quantity <= 0
    ensures UpdateQuantity(st, productId, quantity) == RemoveItem(st, productId)
    ensures !HasProduct(UpdateQuantity(st, productId, quantity).cart.items, productId)
  {
  }
}
