/** The admin product list (components/admin/ProductManagement.tsx): the
    category and search filter, the category menu, the availability toggle,
    the image-change callback and the image summary counts. The fetched
    rows and the outcome of the database update are inputs. */
module ProductManagement {
  import opened Wrappers
  import opened Strings
  import opened Schema
  import Seqs

  // ---------------------------------------------------------------------
  // Filtering
  // ---------------------------------------------------------------------

  /** The search test against an already lower-cased query. The Sinhala
      name is matched only when it is set; the Tamil name is not searched. */
  predicate SearchMatches(p: Product, query: string) {
    || Contains(ToLower(p.name), query)
    || (p.nameSi.Some? && Contains(ToLower(p.nameSi.value), query))
    || Contains(ToLower(p.category), query)
  }

  /** Whether a product is listed under the category menu and search box. */
  predicate Shown(p: Product, categoryFilter: string, searchQuery: string) {
    && (categoryFilter != "all" ==> p.category == categoryFilter)
    && (searchQuery != "" ==> SearchMatches(p, ToLower(searchQuery)))
  }

  /** The filter effect: the category filter, then the search filter. */
  function FilterProducts(products: seq<Product>, categoryFilter: string, searchQuery: string): (r: seq<Product>)
    ensures r == Seqs.Filter(products, p => Shown(p, categoryFilter, searchQuery))
    ensures Seqs.IsSubseq(r, products)
    ensures forall p :: p in r <==> p in products && Shown(p, categoryFilter, searchQuery)
  {
    var query := ToLower(searchQuery);
    var byCategory := if categoryFilter != "all" then Seqs.Filter(products, (p: Product) => p.category == categoryFilter) else products;
    var r := if searchQuery != "" then Seqs.Filter(byCategory, p => SearchMatches(p, query)) else byCategory;
    Seqs.FilterOptional(products, categoryFilter != "all", (p: Product) => p.category == categoryFilter,
                        searchQuery != "", p => SearchMatches(p, query), p => Shown(p, categoryFilter, searchQuery));
    Seqs.FilterIsSubseq(products, p => Shown(p, categoryFilter, searchQuery));
    r
  }

  /** `'all'` with an empty search box lists every product, in order. */
  lemma NoFilterListsAll(products: seq<Product>)
    ensures FilterProducts(products, "all", "") == products
  {
  }

  /** A category other than `'all'` with an empty search box lists exactly
      that category's products. */
  lemma CategoryFilterExact(products: seq<Product>, category: string)
    requires category != "all"
    ensures FilterProducts(products, category, "") == Seqs.Filter(products, (p: Product) => p.category == category)
  {
    Seqs.FilterSame(products, p => Shown(p, category, ""), (p: Product) => p.category == category);
  }

  /** The search ignores letter case. */
  lemma SearchIgnoresCase(products: seq<Product>, categoryFilter: string, q1: string, q2: string)
    requires ToLower(q1) == ToLower(q2)
    ensures FilterProducts(products, categoryFilter, q1) == FilterProducts(products, categoryFilter, q2)
  {
    assert |q1| == |ToLower(q1)| && |q2| == |ToLower(q2)|;
    Seqs.FilterSame(products, p => Shown(p, categoryFilter, q1), p => Shown(p, categoryFilter, q2));
  }

  /** A product without a Sinhala name is found only through its name or
      its category. */
  lemma MissingSinhalaName(p: Product, query: string)
    requires p.nameSi.None?
    ensures SearchMatches(p, query) <==> Contains(ToLower(p.name), query) || Contains(ToLower(p.category), query)
  {
  }

  // ---------------------------------------------------------------------
  // Category menu
  // ---------------------------------------------------------------------

  /** Some product is in category `c`. */
  predicate HasCategory(products: seq<Product>, c: string) {
    exists i :: 0 <= i < |products| && products[i].category == c
  }

  /** `Array.from(new Set(list.map(p => p.category))).sort()`. */
  function Categories(products: seq<Product>): (r: seq<string>)
    ensures Seqs.SortedLex(r) && Seqs.NoDups(r)
    ensures forall c :: c in r <==> HasCategory(products, c)
  {
    var names := CategoryNames(products);
    var r := Seqs.SortedDistinct(names);
    assert forall c :: c in names <==> exists i :: 0 <= i < |products| && products[i].category == c by {
      forall c ensures c in names <==> exists i :: 0 <= i < |products| && products[i].category == c {
        if c in names {
          var i :| 0 <= i < |names| && names[i] == c;
          assert products[i].category == c;
        }
      }
    }
    r
  }

  /** The menu depends only on which categories occur: reordering or
      repeating products gives the same menu. */
  lemma CategoriesDependOnSet(a: seq<Product>, b: seq<Product>)
    requires forall c :: HasCategory(a, c) <==> HasCategory(b, c)
    ensures Categories(a) == Categories(b)
  {
    Seqs.SortedDistinctUnique(Categories(a), Categories(b));
  }

  /** Every category in the menu lists at least one product. */
  lemma EveryCategoryListsSomething(products: seq<Product>, c: string)
    requires c in Categories(products) && c != "all"
    ensures |FilterProducts(products, c, "")| > 0
  {
    var i :| 0 <= i < |products| && products[i].category == c;
    assert products[i] in FilterProducts(products, c, "");
  }

  // ---------------------------------------------------------------------
  // Loading and local updates
  // ---------------------------------------------------------------------

  /** The component state the fetch sets. */
  datatype Listing = Listing(products: seq<Product>, categories: seq<string>)

  /** `fetchProducts`: on success the rows (a missing list is empty) and
      their category menu; on a failure the previous state stays. */
  function LoadProducts(prev: Listing, fetched: Result<Option<seq<Product>>, string>): (l: Listing)
    ensures fetched.Failure? ==> l == prev
    ensures fetched.Success? ==>
      && l.products == fetched.value.GetOr([])
      && l.categories == Categories(l.products)
  {
    match fetched
    case Failure(_) => prev
    case Success(data) =>
      var list := data.GetOr([]);
      Listing(list, Categories(list))
  }

  /** `toggleAvailability`: after a successful update, the product with the
      id gets `is_available` set to the negation of the shown value. */
  function ToggleAvailability(products: seq<Product>, productId: string, currentStatus: bool, updated: bool): (r: seq<Product>)
    ensures !updated ==> r == products
    ensures |r| == |products|
    ensures updated ==> forall i :: 0 <= i < |products| ==>
      r[i] == (if products[i].id == productId then products[i].(isAvailable := !currentStatus) else products[i])
  {
    if updated then Seqs.MapWhere(products, (p: Product) => p.id == productId, (p: Product) => p.(isAvailable := !currentStatus))
    else products
  }

  /** When the shown value is current, a successful toggle flips the flag of
      the chosen product and touches no other product or field. */
  lemma ToggleFlips(products: seq<Product>, i: int)
    requires 0 <= i < |products|
    ensures var r := ToggleAvailability(products, products[i].id, products[i].isAvailable, true);
      r[i].isAvailable == !products[i].isAvailable && r[i].(isAvailable := products[i].isAvailable) == products[i]
  {
  }

  /** Two successful toggles of a product, each from the value then shown,
      restore the list when ids are unique. */
  lemma ToggleTwiceRestores(products: seq<Product>, i: int)
    requires 0 <= i < |products|
    requires forall j, k :: 0 <= j < k < |products| ==> products[j].id != products[k].id
    ensures var once := ToggleAvailability(products, products[i].id, products[i].isAvailable, true);
      ToggleAvailability(once, products[i].id, once[i].isAvailable, true) == products
  {
    var id := products[i].id;
    var once := ToggleAvailability(products, id, products[i].isAvailable, true);
    var twice := ToggleAvailability(once, id, once[i].isAvailable, true);
    forall j | 0 <= j < |products| ensures twice[j] == products[j] {
      if products[j].id == id {
        assert j == i;
      }
    }
  }

  /** `handleImageUpdated`: the product with the id gets the new URL. */
  function ImageUpdated(products: seq<Product>, productId: string, newImageUrl: Option<string>): (r: seq<Product>)
    ensures |r| == |products|
    ensures forall i :: 0 <= i < |products| ==>
      r[i] == (if products[i].id == productId then products[i].(imageUrl := newImageUrl) else products[i])
  {
    Seqs.MapWhere(products, (p: Product) => p.id == productId, (p: Product) => p.(imageUrl := newImageUrl))
  }

  /** An image change never changes what the filter lists: it touches no
      searched or filtered field. */
  lemma {:induction false} ImageUpdateKeepsListing(products: seq<Product>, productId: string, url: Option<string>,
                                categoryFilter: string, searchQuery: string)
    ensures |FilterProducts(ImageUpdated(products, productId, url), categoryFilter, searchQuery)|
         == |FilterProducts(products, categoryFilter, searchQuery)|
    decreases |products|
  {
    var shown := (p: Product) => Shown(p, categoryFilter, searchQuery);
    var r := ImageUpdated(products, productId, url);
    if |products| > 0 {
      ImageUpdateKeepsListing(products[1..], productId, url, categoryFilter, searchQuery);
      assert r[1..] == ImageUpdated(products[1..], productId, url);
      assert shown(r[0]) == shown(products[0]);
    }
  }

  // ---------------------------------------------------------------------
  // Summary line
  // ---------------------------------------------------------------------

  /** `p.image_url` is truthy: set and not empty. */
  predicate HasImage(p: Product) {
    Truthy(p.imageUrl)
  }

  /** The three numbers of the summary line. */
  datatype Summary = Summary(total: nat, withImages: nat, withoutImages: nat)

  /** The summary counts the shown products, those with an image and
      those without; every shown product is in exactly one of the last two,
      and none is without an image exactly when all have one. */
  function ImageSummary(filtered: seq<Product>): (s: Summary)
    ensures s.total == |filtered|
    ensures s.withImages == |Seqs.Filter(filtered, HasImage)|
    ensures s.withImages + s.withoutImages == s.total
    ensures s.withoutImages == 0 <==> forall i :: 0 <= i < |filtered| ==> HasImage(filtered[i])
  {
    var withImages := Seqs.Filter(filtered, HasImage);
    var without := Seqs.Filter(filtered, (p: Product) => !HasImage(p));
    Seqs.FilterPartition(filtered, HasImage, (p: Product) => !HasImage(p));
    AllHaveImages(filtered, without);
    Summary(|filtered|, |withImages|, |without|)
  }

  lemma AllHaveImages(filtered: seq<Product>, without: seq<Product>)
    requires without == Seqs.Filter(filtered, (p: Product) => !HasImage(p))
    ensures |without| == 0 <==> forall i :: 0 <= i < |filtered| ==> HasImage(filtered[i])
  {
    if forall i :: 0 <= i < |filtered| ==> HasImage(filtered[i]) {
      Seqs.FilterDropsAll(filtered, (p: Product) => !HasImage(p));
    } else {
      var i :| 0 <= i < |filtered| && !HasImage(filtered[i]);
      assert filtered[i] in without;
    }
  }

  /** Counting is additive: the summary of two runs of products is the sum
      of their summaries. */
  lemma ImageSummaryAppend(a: seq<Product>, b: seq<Product>)
    ensures var s := ImageSummary(a + b);
      && s.total == ImageSummary(a).total + ImageSummary(b).total
      && s.withImages == ImageSummary(a).withImages + ImageSummary(b).withImages
      && s.withoutImages == ImageSummary(a).withoutImages + ImageSummary(b).withoutImages
  {
    Seqs.FilterAppend(a, b, HasImage);
  }

  /** A product whose URL is the empty string counts as without an image. */
  lemma EmptyUrlIsNoImage(p: Product)
    requires p.imageUrl == Some("")
    ensures ImageSummary([p]) == Summary(1, 0, 1)
  {
  }
}
