/** The product search of `getAllProducts` (backend/controller/product.js):
    a store query over the product's own fields, then the owner lookup that
    applies the city filter and drops products whose owner does not
    resolve. The query terms are matched as literal, case-insensitive
    substrings. */
module ProductSearch {
  import opened Common
  import opened ProductModel
  import opened ShopModel

  /** The query string of a search request. Prices and the rating floor are
      the numbers the request's text denotes (None when absent or not a
      number); the rating floor is in tenths, like `overallRating`. */
  datatype Query = Query(
    searchTerm: Option<string>,
    productCategory: Option<string>,
    productSubcategory: Option<string>,
    city: Option<string>,
    rating: Option<int>,
    minPrice: Option<int>,
    maxPrice: Option<int>
  )

  /** `x || ""` */
  function Term(x: Option<string>): string {
    if x.Some? then x.value else ""
  }

  /** `parseFloat(minPrice) || 0` */
  function LowPrice(q: Query): int {
    if TruthyNumber(q.minPrice) then q.minPrice.value else 0
  }

  /** `parseFloat(maxPrice) || Number.MAX_VALUE`, None standing for "no
      ceiling". */
  function HighPrice(q: Query): Option<int> {
    if TruthyNumber(q.maxPrice) then q.maxPrice else None
  }

  /** A `$regex` with option "i" on a document field: a missing field never
      matches, not even the empty term. */
  predicate FieldMatches(field: Option<string>, term: string) {
    field.Some? && ContainsIgnoreCase(field.value, term)
  }

  predicate PriceMatches(price: Option<int>, q: Query) {
    && price.Some?
    && LowPrice(q) <= price.value
    && (HighPrice(q).Some? ==> price.value <= HighPrice(q).value)
  }

  /** The rating floor applies only when the request supplies one. */
  predicate RatingMatches(overallRating: Option<int>, q: Query) {
    q.rating.Some? ==> overallRating.Some? && overallRating.value >= q.rating.value
  }

  /** The store query built from the request. */
  predicate QueryMatches(p: Product, q: Query) {
    && FieldMatches(p.productName, Term(q.searchTerm))
    && FieldMatches(p.productCategory, Term(q.productCategory))
    && FieldMatches(p.productSubcategory, Term(q.productSubcategory))
    && PriceMatches(p.price, q)
    && RatingMatches(p.overallRating, q)
  }

  /** The owner is populated (with the city match when a city is given) and
      is not null. */
  predicate OwnerMatches(owner: ShopkeeperId, shops: map<ShopkeeperId, Shopkeeper>, q: Query) {
    && owner in shops
    && (Term(q.city) != "" ==>
          shops[owner].shopAddress.Some? &&
          FieldMatches(shops[owner].shopAddress.value.city, Term(q.city)))
  }

  predicate Matches(p: Product, shops: map<ShopkeeperId, Shopkeeper>, q: Query) {
    QueryMatches(p, q) && OwnerMatches(p.owner, shops, q)
  }

  /** The products of the store, in store order, that satisfy the query and
      whose owner resolves and passes the city filter. */
  function Search(products: seq<Product>, shops: map<ShopkeeperId, Shopkeeper>, q: Query): (r: seq<Product>)
    ensures forall p :: p in r <==> p in products && Matches(p, shops, q)
    ensures IsSubsequence(r, products)
  {
    if products == [] then []
    else
      var rest := Search(products[1..], shops, q);
      if Matches(products[0], shops, q) then [products[0]] + rest else rest
  }

  /** Searching the result of a search again changes nothing. */
  lemma {:induction false} SearchIsIdempotent(products: seq<Product>, shops: map<ShopkeeperId, Shopkeeper>, q: Query)
    ensures Search(Search(products, shops, q), shops, q) == Search(products, shops, q)
  {
    if products != [] {
      SearchIsIdempotent(products[1..], shops, q);
      var rest := Search(products[1..], shops, q);
      if Matches(products[0], shops, q) {
        assert ([products[0]] + rest)[1..] == rest;
      }
    }
  }

  /** A product whose owner does not resolve is never in a result. */
  lemma UnresolvedOwnerIsDropped(products: seq<Product>, shops: map<ShopkeeperId, Shopkeeper>, q: Query, p: Product)
    requires p.owner !in shops
    ensures p !in Search(products, shops, q)
  {
  }

  /** With both bounds supplied and non-zero, the price filter keeps exactly
      the prices within them. */
  lemma PriceWindow(q: Query, price: int)
    requires TruthyNumber(q.minPrice) && TruthyNumber(q.maxPrice)
    ensures PriceMatches(Some(price), q) <==> q.minPrice.value <= price <= q.maxPrice.value
  {
  }

  /** A maximum price of 0 is falsy and so imposes no ceiling at all. */
  lemma {:induction false} ZeroMaxPriceHasNoCeiling(products: seq<Product>, shops: map<ShopkeeperId, Shopkeeper>, q: Query)
    ensures Search(products, shops, q.(maxPrice := Some(0))) == Search(products, shops, q.(maxPrice := None))
  {
    if products != [] {
      ZeroMaxPriceHasNoCeiling(products[1..], shops, q);
    }
  }

  /** An unrated product is returned exactly when no rating floor is given
      and it passes every other filter. */
  lemma UnratedNeedsNoFloor(products: seq<Product>, shops: map<ShopkeeperId, Shopkeeper>, q: Query, p: Product)
    requires p in products && p.overallRating.None?
    ensures p in Search(products, shops, q) <==> q.rating.None? && Matches(p, shops, q)
  {
  }

  /** An empty term matches every present field. */
  lemma EmptyTermMatchesPresentField(field: string)
    ensures FieldMatches(Some(field), Term(None))
  {
    EmptyTermMatches(field);
  }

  /** A query that accepts fewer products gives a result that is a
      subsequence of the other's. */
  lemma {:induction false} NarrowerQueryNarrows(products: seq<Product>, shops: map<ShopkeeperId, Shopkeeper>, q: Query, wider: Query)
    requires forall p :: Matches(p, shops, q) ==> Matches(p, shops, wider)
    ensures IsSubsequence(Search(products, shops, q), Search(products, shops, wider))
  {
    if products != [] {
      NarrowerQueryNarrows(products[1..], shops, q, wider);
      var p := products[0];
      var narrow := Search(products[1..], shops, q);
      var wide := Search(products[1..], shops, wider);
      if Matches(p, shops, q) {
        assert ([p] + narrow)[1..] == narrow && ([p] + wide)[1..] == wide;
      } else if Matches(p, shops, wider) {
        SubsequenceOfTail(narrow, wide, p);
      }
    }
  }

  /** Giving a city only narrows the result, and keeps its order. */
  lemma CityFilterNarrows(products: seq<Product>, shops: map<ShopkeeperId, Shopkeeper>, q: Query)
    ensures IsSubsequence(Search(products, shops, q), Search(products, shops, q.(city := None)))
  {
    NarrowerQueryNarrows(products, shops, q, q.(city := None));
  }

  /** Giving a rating floor only narrows the result, and keeps its order. */
  lemma RatingFloorNarrows(products: seq<Product>, shops: map<ShopkeeperId, Shopkeeper>, q: Query)
    ensures IsSubsequence(Search(products, shops, q), Search(products, shops, q.(rating := None)))
  {
    NarrowerQueryNarrows(products, shops, q, q.(rating := None));
  }

  lemma {:induction false} SubsequenceOfTail<T>(r: seq<T>, s: seq<T>, x: T)
    requires IsSubsequence(r, s)
    ensures IsSubsequence(r, [x] + s)
  {
    assert ([x] + s)[1..] == s;
  }
}
