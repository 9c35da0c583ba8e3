/** `ProductFilter`: selecting products by a price range, by a fixed set of
    conditions, and by a criteria object whose unset (`null`) fields impose
    nothing. Prices and ratings are compared only, so they are reals. */
module ProductFilter {
  import opened Seqs
  import opened Optional

  datatype Product = Product(name: string, category: string, price: real, rating: real, inStock: bool)

  /** `FilterCriteria`: every field may be `null`, here `None`. */
  datatype FilterCriteria = FilterCriteria(
    category: Option<string>,
    minPrice: Option<real>,
    maxPrice: Option<real>,
    minRating: Option<real>,
    inStock: Option<bool>)

  /** The criteria object with no field set. */
  const NoCriteria := FilterCriteria(None, None, None, None, None)

  function PriceAtLeast(minPrice: real): Product -> bool { (p: Product) => p.price >= minPrice }
  function PriceAtMost(maxPrice: real): Product -> bool { (p: Product) => p.price <= maxPrice }
  function PriceBetween(minPrice: real, maxPrice: real): Product -> bool { (p: Product) => minPrice <= p.price <= maxPrice }

  /** `filterByPriceRange`: the two bound filters in a row. */
  function FilterByPriceRange(products: seq<Product>, minPrice: real, maxPrice: real): seq<Product>
  {
    Filter(PriceAtMost(maxPrice), Filter(PriceAtLeast(minPrice), products))
  }

  function InCategory(category: string): Product -> bool { (p: Product) => category == p.category }
  function RatedAbove(minRating: real): Product -> bool { (p: Product) => p.rating > minRating }
  function StockIs(inStock: bool): Product -> bool { (p: Product) => p.inStock == inStock }
  function AllConditions(category: string, minRating: real, inStock: bool): Product -> bool
  {
    (p: Product) => category == p.category && p.rating > minRating && p.inStock == inStock
  }

  /** `filterByMultipleConditions`: category, then a strictly greater rating, then stock. */
  function FilterByMultipleConditions(products: seq<Product>, category: string, minRating: real, inStock: bool): seq<Product>
  {
    Filter(StockIs(inStock), Filter(RatedAbove(minRating), Filter(InCategory(category), products)))
  }

  /** A product satisfies every criterion that is set; the rating bound is inclusive here. */
  predicate Matches(criteria: FilterCriteria, p: Product)
  {
    && (criteria.category.Some? ==> criteria.category.value == p.category)
    && (criteria.minPrice.Some? ==> p.price >= criteria.minPrice.value)
    && (criteria.maxPrice.Some? ==> p.price <= criteria.maxPrice.value)
    && (criteria.minRating.Some? ==> p.rating >= criteria.minRating.value)
    && (criteria.inStock.Some? ==> p.inStock == criteria.inStock.value)
  }

  function CriteriaTest(criteria: FilterCriteria): Product -> bool { (p: Product) => Matches(criteria, p) }

  /** `filterByCriteria`: starts from the test that passes everything and
      conjoins one test for each criterion that is set. */
  method FilterByCriteria(products: seq<Product>, criteria: FilterCriteria) returns (r: seq<Product>)
    ensures r == Filter(CriteriaTest(criteria), products)
  {
    var test: Product -> bool := p => true;
    if criteria.category.Some? {
      var previous, category := test, criteria.category.value;
      test := p => previous(p) && category == p.category;
    }
    assert forall p :: test(p) == (criteria.category.Some? ==> criteria.category.value == p.category);
    ghost var soFar := test;
    if criteria.minPrice.Some? {
      var previous, minPrice := test, criteria.minPrice.value;
      test := p => previous(p) && p.price >= minPrice;
    }
    assert forall p :: test(p) == (soFar(p) && (criteria.minPrice.Some? ==> p.price >= criteria.minPrice.value));
    soFar := test;
    if criteria.maxPrice.Some? {
      var previous, maxPrice := test, criteria.maxPrice.value;
      test := p => previous(p) && p.price <= maxPrice;
    }
    assert forall p :: test(p) == (soFar(p) && (criteria.maxPrice.Some? ==> p.price <= criteria.maxPrice.value));
    soFar := test;
    if criteria.minRating.Some? {
      var previous, minRating := test, criteria.minRating.value;
      test := p => previous(p) && p.rating >= minRating;
    }
    assert forall p :: test(p) == (soFar(p) && (criteria.minRating.Some? ==> p.rating >= criteria.minRating.value));
    soFar := test;
    if criteria.inStock.Some? {
      var previous, inStock := test, criteria.inStock.value;
      test := p => previous(p) && p.inStock == inStock;
    }
    assert forall p :: test(p) == (soFar(p) && (criteria.inStock.Some? ==> p.inStock == criteria.inStock.value));
    FilterCongruent(test, CriteriaTest(criteria), products);
    r := Filter(test, products);
  }

  /** A product is kept by the price range exactly when both bounds, inclusive, admit
      its price; the kept products keep their order. */
  lemma PriceRangeMeaning(products: seq<Product>, minPrice: real, maxPrice: real)
    ensures forall p :: p in FilterByPriceRange(products, minPrice, maxPrice) <==>
              p in products && minPrice <= p.price <= maxPrice
    ensures IsSubsequence(FilterByPriceRange(products, minPrice, maxPrice), products)
  {
    FilterFuse(PriceAtLeast(minPrice), PriceAtMost(maxPrice), PriceBetween(minPrice, maxPrice), products);
    FilterIsSubsequence(PriceBetween(minPrice, maxPrice), products);
    forall p {
      FilterMembership(PriceBetween(minPrice, maxPrice), products, p);
    }
  }

  /** A product is kept by the fixed conditions exactly when its category
      matches, its rating is strictly above `minRating` and its stock flag
      matches; the kept products keep their order. */
  lemma MultipleConditionsMeaning(products: seq<Product>, category: string, minRating: real, inStock: bool)
    ensures forall p :: p in FilterByMultipleConditions(products, category, minRating, inStock) <==>
              p in products && p.category == category && p.rating > minRating && p.inStock == inStock
    ensures IsSubsequence(FilterByMultipleConditions(products, category, minRating, inStock), products)
  {
    var all := AllConditions(category, minRating, inStock);
    var categoryAndRating: Product -> bool := (p: Product) => category == p.category && p.rating > minRating;
    FilterFuse(InCategory(category), RatedAbove(minRating), categoryAndRating, products);
    FilterFuse(categoryAndRating, StockIs(inStock), all, products);
    FilterIsSubsequence(all, products);
    forall p {
      FilterMembership(all, products, p);
    }
  }

  /** `filterByCriteria` keeps a product exactly when it satisfies every
      criterion that is set; the kept products keep their order. */
  lemma CriteriaMeaning(products: seq<Product>, criteria: FilterCriteria)
    ensures forall p :: p in Filter(CriteriaTest(criteria), products) <==> p in products && Matches(criteria, p)
    ensures IsSubsequence(Filter(CriteriaTest(criteria), products), products)
  {
    FilterIsSubsequence(CriteriaTest(criteria), products);
    forall p {
      FilterMembership(CriteriaTest(criteria), products, p);
    }
  }

  /** With no criterion set, `filterByCriteria` returns its input. */
  lemma NoCriteriaKeepsAll(products: seq<Product>)
    ensures Filter(CriteriaTest(NoCriteria), products) == products
  {
    FilterKeepsAll(CriteriaTest(NoCriteria), products);
  }

  /** `more` sets every criterion `fewer` sets, to the same value, and maybe others. */
  predicate SetsAtLeast(more: FilterCriteria, fewer: FilterCriteria)
  {
    && (fewer.category.Some? ==> more.category == fewer.category)
    && (fewer.minPrice.Some? ==> more.minPrice == fewer.minPrice)
    && (fewer.maxPrice.Some? ==> more.maxPrice == fewer.maxPrice)
    && (fewer.minRating.Some? ==> more.minRating == fewer.minRating)
    && (fewer.inStock.Some? ==> more.inStock == fewer.inStock)
  }

  /** Setting more criteria can only drop products from the result. */
  lemma MoreCriteriaShrink(products: seq<Product>, more: FilterCriteria, fewer: FilterCriteria)
    requires SetsAtLeast(more, fewer)
    ensures IsSubsequence(Filter(CriteriaTest(more), products), Filter(CriteriaTest(fewer), products))
  {
    FilterFuse(CriteriaTest(fewer), CriteriaTest(more), CriteriaTest(more), products);
    FilterIsSubsequence(CriteriaTest(more), Filter(CriteriaTest(fewer), products));
  }

  /** Criteria that set only the two price bounds select what `filterByPriceRange` selects. */
  lemma PriceCriteriaEqualPriceRange(products: seq<Product>, minPrice: real, maxPrice: real)
    ensures Filter(CriteriaTest(FilterCriteria(None, Some(minPrice), Some(maxPrice), None, None)), products)
            == FilterByPriceRange(products, minPrice, maxPrice)
  {
    var criteria := FilterCriteria(None, Some(minPrice), Some(maxPrice), None, None);
    FilterFuse(PriceAtLeast(minPrice), PriceAtMost(maxPrice), CriteriaTest(criteria), products);
  }
}
