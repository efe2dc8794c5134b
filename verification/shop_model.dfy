/** The user and shopkeeper documents, with the fields the controllers read
    and write. Their schemas (backend/model/auth.js and
    backend/model/shopkeeper.js) are not part of this model. */
module ShopModel {
  import opened Common

  /** An account; the controllers only look at its role. */
  datatype User = User(id: UserId, role: string)

  /** A shop address; the search reads its city. */
  datatype Address = Address(city: Option<string>)

  datatype Shopkeeper = Shopkeeper(
    id: ShopkeeperId,
    /** The account that owns the shop. */
    userId: UserId,
    shopName: Option<string>,
    shopAddress: Option<Address>,
    shopDescription: Option<string>,
    contactNumber: seq<string>,
    /** Ids of the products attached to the shop, in attachment order. */
    products: seq<ProductId>
  )

  const ShopkeeperRole := "shopkeeper"
}
