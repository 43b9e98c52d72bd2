/** The storefront's product grid (components/products/ProductGrid.tsx):
    the category buttons and the category filter. */
module ProductGrid {
  import opened Schema
  import Seqs
  import ProductManagement

  /** The buttons: `'all'` first, then the distinct categories in order. */
  function GridCategories(products: seq<Product>): (r: seq<string>)
    ensures |r| >= 1 && r[0] == "all"
    ensures r[1..] == ProductManagement.Categories(products)
    ensures forall c :: c in r <==> c == "all" || ProductManagement.HasCategory(products, c)
  {
    ["all"] + ProductManagement.Categories(products)
  }

  /** `filteredProducts`. */
  function GridFilter(products: seq<Product>, selected: string): (r: seq<Product>)
    ensures selected == "all" ==> r == products
    ensures selected != "all" ==> forall p :: p in r <==> p in products && p.category == selected
    ensures Seqs.IsSubseq(r, products)
  {
    if selected == "all" then
      Seqs.SubseqReflexive(products);
      products
    else
      Seqs.FilterIsSubseq(products, (p: Product) => p.category == selected);
      Seqs.Filter(products, (p: Product) => p.category == selected)
  }

  /** The grid shows the admin list's category filter without a search. */
  lemma GridIsCategoryFilter(products: seq<Product>, selected: string)
    ensures GridFilter(products, selected) == ProductManagement.FilterProducts(products, selected, "")
  {
    if selected != "all" {
      ProductManagement.CategoryFilterExact(products, selected);
    }
  }

  /** No button leads to an empty grid unless there are no products at
      all: the "No products in this category." text needs an empty list. */
  lemma ButtonsShowProducts(products: seq<Product>, i: int)
    requires 0 <= i < |GridCategories(products)|
    ensures |GridFilter(products, GridCategories(products)[i])| == 0 ==> |products| == 0
  {
    var c := GridCategories(products)[i];
    if i > 0 {
      assert c in ProductManagement.Categories(products);
      var k :| 0 <= k < |products| && products[k].category == c;
      if c != "all" {
        assert products[k] in GridFilter(products, c);
      }
    }
  }

  /** A product whose category is literally `all` cannot be singled out:
      its button shows every product, and a second `all` button appears. */
  lemma CategoryNamedAll(products: seq<Product>, k: int)
    requires 0 <= k < |products| && products[k].category == "all"
    ensures "all" in GridCategories(products)[1..]
    ensures GridFilter(products, "all") == products
  {
  }
}
