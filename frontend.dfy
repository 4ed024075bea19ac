/** The derived view state of the price-comparison page: the icon per source,
    the filtered and sorted product list, the filter options and the best deal. */
module Frontend {

  import opened Wrappers
  import opened Sequences
  import opened Listing
  import Comparison

  const DefaultIcon: string := "🛍️"

  /** `getSourceIcon`: the icon of a known source, the shopping-bag icon otherwise. */
  function SourceIcon(source: string): (icon: string)
    ensures source !in {"Flipkart", "Amazon", "Vijay Sales", "JioMart"} ==> icon == DefaultIcon
  {
    if source == "Flipkart" then "📱"
    else if source == "Amazon" then "🛒"
    else if source == "Vijay Sales" then "🏬"
    else if source == "JioMart" then "🔵"
    else DefaultIcon
  }

  /** Each source the backend names has an icon of its own. */
  lemma SourceIconsDistinct(s: Source, t: Source)
    ensures SourceIcon(Name(s)) != DefaultIcon
    ensures SourceIcon(Name(s)) == SourceIcon(Name(t)) <==> s == t
  {
  }

  /** The two filters: a source and a category, either of which may be "all". */
  predicate Shown(p: Product, selectedSource: string, selectedCategory: string) {
    && (selectedSource == "all" || p.source == selectedSource)
    && (selectedCategory == "all" || p.category == selectedCategory)
  }

  /** `a.price_num - b.price_num`: JavaScript treats a missing price as 0. */
  function Price(p: Product): int {
    Comparison.PriceKey(p)
  }

  /** The comparators as keys of a stable sort: ascending price, descending price,
      or a comparator that always answers 0. */
  function SortKey(sortBy: string): Product -> int {
    if sortBy == "price-asc" then Price
    else if sortBy == "price-desc" then NegatedPrice
    else Unordered
  }

  function NegatedPrice(p: Product): int {
    -Price(p)
  }

  function Unordered(p: Product): int {
    0
  }

  /** `filteredProducts`; `sort` works on the fresh array `filter` returns, so `products` is left alone. */
  function FilteredProducts(products: seq<Product>, selectedSource: string, selectedCategory: string,
                            sortBy: string): (r: seq<Product>)
    ensures |r| <= |products|
    ensures forall p :: p in r <==> p in products && Shown(p, selectedSource, selectedCategory)
  {
    var bySource := Filter(products, (p: Product) => selectedSource == "all" || p.source == selectedSource);
    var byCategory := Filter(bySource, (p: Product) => selectedCategory == "all" || p.category == selectedCategory);
    SortByPermutes(byCategory, SortKey(sortBy));
    assert |SortBy(byCategory, SortKey(sortBy))| == |multiset(byCategory)|;
    assert forall p :: p in SortBy(byCategory, SortKey(sortBy)) <==> p in multiset(byCategory);
    assert forall p :: p in byCategory <==> p in products && Shown(p, selectedSource, selectedCategory);
    SortBy(byCategory, SortKey(sortBy))
  }

  /** The products that pass both filters, in the order the backend sent them. */
  function Selected(products: seq<Product>, selectedSource: string, selectedCategory: string): (r: seq<Product>)
    ensures forall p :: p in r <==> p in products && Shown(p, selectedSource, selectedCategory)
  {
    Filter(products, (p: Product) => Shown(p, selectedSource, selectedCategory))
  }

  /** Filtering twice is filtering once by both tests. */
  lemma {:induction false} FilterTwice(s: seq<Product>, selectedSource: string, selectedCategory: string)
    ensures Filter(Filter(s, (p: Product) => selectedSource == "all" || p.source == selectedSource),
                   (p: Product) => selectedCategory == "all" || p.category == selectedCategory)
            == Selected(s, selectedSource, selectedCategory)
  {
    if s != [] {
      var bySource := (p: Product) => selectedSource == "all" || p.source == selectedSource;
      var byCategory := (p: Product) => selectedCategory == "all" || p.category == selectedCategory;
      var head := if bySource(s[0]) then [s[0]] else [];
      FilterTwice(s[1..], selectedSource, selectedCategory);
      FilterAppend(head, Filter(s[1..], bySource), byCategory);
      if head != [] {
        assert head[1..] == [];
      }
    }
  }

  /** The list shows every product that passes both filters, as often as the backend sent it, and nothing else. */
  lemma FilteredContents(products: seq<Product>, selectedSource: string, selectedCategory: string, sortBy: string)
    ensures multiset(FilteredProducts(products, selectedSource, selectedCategory, sortBy))
            == multiset(Selected(products, selectedSource, selectedCategory))
    ensures forall p :: multiset(FilteredProducts(products, selectedSource, selectedCategory, sortBy))[p] ==
                        if Shown(p, selectedSource, selectedCategory) then multiset(products)[p] else 0
    ensures |FilteredProducts(products, selectedSource, selectedCategory, sortBy)| <= |products|
  {
    FilterTwice(products, selectedSource, selectedCategory);
    SortByPermutes(Selected(products, selectedSource, selectedCategory), SortKey(sortBy));
    FilterMultiset(products, (p: Product) => Shown(p, selectedSource, selectedCategory));
    assert |multiset(Selected(products, selectedSource, selectedCategory))| <= |multiset(products)|;
  }

  /** "price-asc" lists the cheapest first, and equal prices in the order received. */
  lemma FilteredAscending(products: seq<Product>, selectedSource: string, selectedCategory: string)
    ensures var f := FilteredProducts(products, selectedSource, selectedCategory, "price-asc");
            forall i, j :: 0 <= i < j < |f| ==> Price(f[i]) <= Price(f[j])
    ensures forall k :: WithKey(FilteredProducts(products, selectedSource, selectedCategory, "price-asc"), Price, k)
                        == WithKey(Selected(products, selectedSource, selectedCategory), Price, k)
  {
    FilterTwice(products, selectedSource, selectedCategory);
    var s := Selected(products, selectedSource, selectedCategory);
    assert SortKey("price-asc") == Price;
    SortByCorrect(s, Price);
  }

  /** "price-desc" lists the most expensive first, and equal prices in the order received. */
  lemma FilteredDescending(products: seq<Product>, selectedSource: string, selectedCategory: string)
    ensures var f := FilteredProducts(products, selectedSource, selectedCategory, "price-desc");
            forall i, j :: 0 <= i < j < |f| ==> Price(f[i]) >= Price(f[j])
    ensures forall k :: WithKey(FilteredProducts(products, selectedSource, selectedCategory, "price-desc"), NegatedPrice, k)
                        == WithKey(Selected(products, selectedSource, selectedCategory), NegatedPrice, k)
  {
    FilterTwice(products, selectedSource, selectedCategory);
    var s := Selected(products, selectedSource, selectedCategory);
    assert SortKey("price-desc") == NegatedPrice;
    SortByCorrect(s, NegatedPrice);
    var f := FilteredProducts(products, selectedSource, selectedCategory, "price-desc");
    forall i, j | 0 <= i < j < |f| ensures Price(f[i]) >= Price(f[j]) {
      assert SortKey("price-desc")(f[i]) <= SortKey("price-desc")(f[j]);
    }
  }

  /** Any other ordering keeps the order the backend sent. */
  lemma FilteredUnsorted(products: seq<Product>, selectedSource: string, selectedCategory: string, sortBy: string)
    requires sortBy != "price-asc" && sortBy != "price-desc"
    ensures FilteredProducts(products, selectedSource, selectedCategory, sortBy)
            == Selected(products, selectedSource, selectedCategory)
  {
    FilterTwice(products, selectedSource, selectedCategory);
    SortByConstantKey(Selected(products, selectedSource, selectedCategory), SortKey(sortBy));
  }

  /** `[...new Set(products.map(p => p.category))]`. */
  function Categories(products: seq<Product>): (r: seq<string>)
    ensures forall c :: c in r <==> exists i :: 0 <= i < |products| && products[i].category == c
  {
    var xs := seq(|products|, i requires 0 <= i < |products| => products[i].category);
    assert forall i :: 0 <= i < |products| ==> xs[i] == products[i].category;
    Distinct(xs)
  }

  /** `[...new Set(products.map(p => p.source))]`. */
  function Sources(products: seq<Product>): (r: seq<string>)
    ensures forall s :: s in r <==> exists i :: 0 <= i < |products| && products[i].source == s
  {
    var xs := seq(|products|, i requires 0 <= i < |products| => products[i].source);
    assert forall i :: 0 <= i < |products| ==> xs[i] == products[i].source;
    Distinct(xs)
  }

  /** Each category of a product is offered once, and nothing else is; the order is that of first occurrence. */
  lemma CategoriesOffered(products: seq<Product>)
    ensures forall c :: c in Categories(products) <==> exists p :: p in products && p.category == c
    ensures NoDuplicates(Categories(products))
    ensures var cs := seq(|products|, i requires 0 <= i < |products| => products[i].category);
            forall i, j :: 0 <= i < j < |Categories(products)| ==>
              FirstIndex(cs, Categories(products)[i]) < FirstIndex(cs, Categories(products)[j])
  {
    var cs := seq(|products|, i requires 0 <= i < |products| => products[i].category);
    DistinctOrder(cs);
    forall c ensures c in Categories(products) <==> exists p :: p in products && p.category == c {
      if c in cs {
        var i :| 0 <= i < |cs| && cs[i] == c;
        assert products[i] in products;
      }
      if exists p :: p in products && p.category == c {
        var p :| p in products && p.category == c;
        var i :| 0 <= i < |products| && products[i] == p;
        assert cs[i] == c;
      }
    }
  }

  /** Each source that sent a product is offered once, and nothing else is; the order is that of first occurrence. */
  lemma SourcesOffered(products: seq<Product>)
    ensures forall s :: s in Sources(products) <==> exists p :: p in products && p.source == s
    ensures NoDuplicates(Sources(products))
    ensures var ss := seq(|products|, i requires 0 <= i < |products| => products[i].source);
            forall i, j :: 0 <= i < j < |Sources(products)| ==>
              FirstIndex(ss, Sources(products)[i]) < FirstIndex(ss, Sources(products)[j])
  {
    var ss := seq(|products|, i requires 0 <= i < |products| => products[i].source);
    DistinctOrder(ss);
    forall s ensures s in Sources(products) <==> exists p :: p in products && p.source == s {
      if s in ss {
        var i :| 0 <= i < |ss| && ss[i] == s;
        assert products[i] in products;
      }
      if exists p :: p in products && p.source == s {
        var p :| p in products && p.source == s;
        var i :| 0 <= i < |products| && products[i] == p;
        assert ss[i] == s;
      }
    }
  }

  /** `bestDeal`: the first product of the list, or null when the list is empty. */
  function BestDeal(filtered: seq<Product>): (r: Option<Product>)
    ensures r.None? <==> filtered == []
    ensures r.Some? ==> r.value == filtered[0]
  {
    if |filtered| > 0 then Some(filtered[0]) else None
  }

  /** Under "price-asc" the best deal is a shown product no shown product undercuts,
      and there is none exactly when no product passes the filters. */
  lemma BestDealCheapest(products: seq<Product>, selectedSource: string, selectedCategory: string)
    ensures var best := BestDeal(FilteredProducts(products, selectedSource, selectedCategory, "price-asc"));
            && (best.None? <==> forall p :: p in products ==> !Shown(p, selectedSource, selectedCategory))
            && (best.Some? ==> best.value in products && Shown(best.value, selectedSource, selectedCategory))
            && (best.Some? ==> forall p :: p in products && Shown(p, selectedSource, selectedCategory) ==>
                                 Price(best.value) <= Price(p))
  {
    var f := FilteredProducts(products, selectedSource, selectedCategory, "price-asc");
    FilteredContents(products, selectedSource, selectedCategory, "price-asc");
    FilteredAscending(products, selectedSource, selectedCategory);
    forall p ensures p in f <==> p in products && Shown(p, selectedSource, selectedCategory) {
      assert p in f <==> p in multiset(f);
    }
    if f != [] {
      SortedHeadLeast(f, Price);
    }
  }
}
