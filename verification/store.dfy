/** The record store the controllers read and save: users, shopkeepers and
    products, each an in-memory map from id to document, plus the order in
    which the store lists products. `Valid` is what every handler keeps. */
module Store {
  import opened Common
  import opened ProductModel
  import opened ShopModel
  import opened Interactions

  /** A product as the store holds it: filed under its own id, an id of the
      document-id form, accepted by the schema, and with the interaction
      invariants in place. */
  ghost predicate StoredProduct(id: ProductId, p: Product) {
    p.id == id && IsObjectId(id) && ValidProduct(p) && InteractionsConsistent(p)
  }

  ghost predicate ProductsValid(products: map<ProductId, Product>, order: seq<ProductId>) {
    && NoDuplicates(order)
    && (forall id :: id in order <==> id in products)
    && (forall id :: id in products ==> StoredProduct(id, products[id]))
  }

  /** A shop's product list names existing products it owns, each once. */
  ghost predicate ShopProductsValid(sid: ShopkeeperId, s: Shopkeeper, products: map<ProductId, Product>) {
    && s.id == sid
    && NoDuplicates(s.products)
    && (forall pid :: pid in s.products ==> pid in products && products[pid].owner == sid)
  }

  /** At most one shopkeeper per user account. */
  ghost predicate OneShopPerUser(shops: map<ShopkeeperId, Shopkeeper>) {
    forall a, b :: a in shops && b in shops && shops[a].userId == shops[b].userId ==> a == b
  }

  ghost predicate ShopsValid(shops: map<ShopkeeperId, Shopkeeper>, products: map<ProductId, Product>) {
    && OneShopPerUser(shops)
    && (forall sid :: sid in shops ==> ShopProductsValid(sid, shops[sid], products))
  }

  /** Replacing or adding a product without moving an existing one to
      another owner keeps every shop's product list valid. */
  lemma ShopsStayValid(shops: map<ShopkeeperId, Shopkeeper>, products: map<ProductId, Product>, id: ProductId, p: Product)
    requires ShopsValid(shops, products)
    requires id in products ==> p.owner == products[id].owner
    ensures ShopsValid(shops, products[id := p])
  {
    forall sid | sid in shops ensures ShopProductsValid(sid, shops[sid], products[id := p]) {
      assert ShopProductsValid(sid, shops[sid], products);
    }
  }

  /** Saving a changed product under its id, with its owner unchanged, keeps
      the store valid. */
  lemma ReplacedProductKeepsStore(products: map<ProductId, Product>, order: seq<ProductId>,
                                  shops: map<ShopkeeperId, Shopkeeper>, id: ProductId, q: Product)
    requires ProductsValid(products, order) && ShopsValid(shops, products)
    requires id in products && q.owner == products[id].owner && q.id == id
    requires ValidProduct(q) && InteractionsConsistent(q)
    ensures ProductsValid(products[id := q], order) && ShopsValid(shops, products[id := q])
  {
    ShopsStayValid(shops, products, id, q);
  }

  /** The products in the order the store lists them. */
  function Listing(order: seq<ProductId>, products: map<ProductId, Product>): (r: seq<Product>)
    requires forall id :: id in order ==> id in products
    ensures |r| == |order|
    ensures forall i :: 0 <= i < |order| ==> r[i] == products[order[i]]
  {
    seq(|order|, i requires 0 <= i < |order| => products[order[i]])
  }

  class Db {
    var users: map<UserId, User>
    var shopkeepers: map<ShopkeeperId, Shopkeeper>
    var products: map<ProductId, Product>
    var productOrder: seq<ProductId>

    ghost predicate Valid()
      reads this
    {
      ProductsValid(products, productOrder) && ShopsValid(shopkeepers, products)
    }

    /** An empty catalog over a fixed set of user accounts. */
    constructor (accounts: map<UserId, User>)
      ensures Valid()
      ensures users == accounts && shopkeepers == map[] && products == map[] && productOrder == []
    {
      users, shopkeepers, products, productOrder := accounts, map[], map[], [];
    }
  }
}
