/** The product handlers of backend/controller/product.js. Each one fetches a
    product from the store, changes it and saves it back; a save re-checks
    the schema (ValidProduct) and stores nothing when the check fails. */
module ProductController {
  import opened Common
  import opened ProductModel
  import opened ShopModel
  import opened Interactions
  import opened ProductSearch
  import opened Store

  const ProductNotFound := Failure(404, "Product not found")

  // ---------------------------------------------------------------------
  // createProduct

  /** The body of a create request; `owner` is the shopkeeper's user id. */
  datatype NewProduct = NewProduct(
    productName: Option<string>,
    caption: Option<string>,
    imageUrls: Option<seq<string>>,
    owner: UserId,
    price: Option<int>,
    discount: Option<int>,
    productCategory: Option<string>,
    productSubcategory: Option<string>
  )

  /** The document `new Product({...})` builds, owned by shop `shop`. */
  function Created(id: ProductId, req: NewProduct, shop: ShopkeeperId): (p: Product)
    ensures p.id == id && p.owner == shop
    ensures p.imageUrls == (if req.imageUrls.Some? then req.imageUrls.value else [])
    ensures p.likes == [] && p.comments == [] && p.ratings == [] && p.overallRating == None
    ensures p.discountPercentage == None
    ensures InteractionsConsistent(p)
  {
    Product(id, req.productName, req.caption, OrObject(req.imageUrls, []), shop, req.price, req.discount,
            None, req.productCategory, req.productSubcategory, [], [], [], None)
  }

  /** A created product passes the schema exactly when its price, if any,
      lies in 1..10000; its image list and its discount are never refused. */
  lemma CreatedValidity(id: ProductId, req: NewProduct, shop: ShopkeeperId)
    ensures ValidProduct(Created(id, req, shop)) <==>
              (req.price.Some? ==> 1 <= req.price.value <= 10000)
  {
  }

  /** The product is filed under a new store-assigned id `newId`. It fails
      with 400 when no shop belongs to the user named as owner, and with 500
      when the schema rejects the new product; the store is unchanged then. */
  method CreateProduct(db: Db, newId: ProductId, req: NewProduct) returns (r: Result<Product>)
    requires db.Valid() && IsObjectId(newId) && newId !in db.products
    modifies db
    ensures db.Valid()
    ensures db.users == old(db.users) && db.shopkeepers == old(db.shopkeepers)
    ensures (forall sid :: sid in db.shopkeepers ==> db.shopkeepers[sid].userId != req.owner) ==>
              r == Err(Failure(400, "Not valid user"))
    ensures forall sid :: sid in db.shopkeepers && db.shopkeepers[sid].userId == req.owner ==>
              if ValidProduct(Created(newId, req, sid)) then r == Ok(Created(newId, req, sid))
              else r == Err(Failure(500, "Error creating product"))
    ensures r.Ok? ==> db.products == old(db.products)[newId := r.value] &&
                      db.productOrder == old(db.productOrder) + [newId]
    ensures r.Ok? ==> InRange(r.value.price, MinPrice, MaxPrice)
    ensures r == Err(Failure(500, "Error creating product")) <==>
              (exists sid :: sid in db.shopkeepers && db.shopkeepers[sid].userId == req.owner) &&
              !InRange(req.price, MinPrice, MaxPrice)
    ensures r.Err? ==> db.products == old(db.products) && db.productOrder == old(db.productOrder)
  {
    if !exists sid :: sid in db.shopkeepers && db.shopkeepers[sid].userId == req.owner {
      return Err(Failure(400, "Not valid user"));
    }
    var sid :| sid in db.shopkeepers && db.shopkeepers[sid].userId == req.owner;
    var p := Created(newId, req, sid);
    CreatedValidity(newId, req, sid);
    if !ValidProduct(p) {
      return Err(Failure(500, "Error creating product"));
    }
    ShopsStayValid(db.shopkeepers, db.products, newId, p);
    db.products := db.products[newId := p];
    db.productOrder := db.productOrder + [newId];
    r := Ok(p);
  }

  // ---------------------------------------------------------------------
  // updateProduct

  /** The body of an update request. */
  datatype ProductPatch = ProductPatch(
    productName: Option<string>,
    caption: Option<string>,
    imageUrls: Option<seq<string>>,
    price: Option<int>,
    discount: Option<int>,
    productCategory: Option<string>,
    productSubcategory: Option<string>
  )

  /** Each field becomes `supplied || current`: a falsy value (absent, "",
      0) keeps the current one, and any supplied image list replaces the
      current one, even an empty list. */
  function Patched(p: Product, x: ProductPatch): (q: Product)
    ensures q.productName == (if Truthy(x.productName) then x.productName else p.productName)
    ensures q.caption == (if Truthy(x.caption) then x.caption else p.caption)
    ensures q.imageUrls == (if x.imageUrls.Some? then x.imageUrls.value else p.imageUrls)
    ensures q.price == (if TruthyNumber(x.price) then x.price else p.price)
    ensures q.discount == (if TruthyNumber(x.discount) then x.discount else p.discount)
    ensures q.productCategory == (if Truthy(x.productCategory) then x.productCategory else p.productCategory)
    ensures q.productSubcategory == (if Truthy(x.productSubcategory) then x.productSubcategory else p.productSubcategory)
    ensures q.id == p.id && q.owner == p.owner && q.discountPercentage == p.discountPercentage
    ensures q.likes == p.likes && q.comments == p.comments
    ensures q.ratings == p.ratings && q.overallRating == p.overallRating
  {
    p.(productName := OrString(x.productName, p.productName),
       caption := OrString(x.caption, p.caption),
       imageUrls := OrObject(x.imageUrls, p.imageUrls),
       price := OrNumber(x.price, p.price),
       discount := OrNumber(x.discount, p.discount),
       productCategory := OrString(x.productCategory, p.productCategory),
       productSubcategory := OrString(x.productSubcategory, p.productSubcategory))
  }

  /** A patch whose every field is falsy leaves the product as it was. */
  lemma FalsyPatchKeepsProduct(p: Product, x: ProductPatch)
    requires !Truthy(x.productName) && !Truthy(x.caption) && x.imageUrls.None?
    requires !TruthyNumber(x.price) && !TruthyNumber(x.discount)
    requires !Truthy(x.productCategory) && !Truthy(x.productSubcategory)
    ensures Patched(p, x) == p
  {
  }

  /** Applying the same patch twice is the same as applying it once. */
  lemma PatchIsIdempotent(p: Product, x: ProductPatch)
    ensures Patched(Patched(p, x), x) == Patched(p, x)
  {
  }

  /** A patched valid product stays valid unless the patch supplies a price
      outside 1..10000; the discount is never checked. */
  lemma PatchedValidity(p: Product, x: ProductPatch)
    requires ValidProduct(p)
    ensures ValidProduct(Patched(p, x)) <==> (TruthyNumber(x.price) ==> 1 <= x.price.value <= 10000)
  {
  }

  /** Fails with 404 for an unknown product and with 500 when the patched
      product breaks the schema; then nothing is saved. */
  method UpdateProduct(db: Db, id: ProductId, x: ProductPatch) returns (r: Result<Product>)
    requires db.Valid()
    modifies db
    ensures db.Valid()
    ensures db.users == old(db.users) && db.shopkeepers == old(db.shopkeepers)
    ensures db.productOrder == old(db.productOrder)
    ensures id !in old(db.products) ==> r == Err(ProductNotFound) && db.products == old(db.products)
    ensures id in old(db.products) ==>
              var q := Patched(old(db.products)[id], x);
              if ValidProduct(q) then r == Ok(q) && db.products == old(db.products)[id := q]
              else r == Err(Failure(500, "Error updating product")) && db.products == old(db.products)
    ensures id in old(db.products) ==>
              (r.Ok? <==> (TruthyNumber(x.price) ==> MinPrice <= x.price.value <= MaxPrice))
  {
    if id !in db.products {
      return Err(ProductNotFound);
    }
    var q := Patched(db.products[id], x);
    PatchedValidity(db.products[id], x);
    if !ValidProduct(q) {
      return Err(Failure(500, "Error updating product"));
    }
    ShopsStayValid(db.shopkeepers, db.products, id, q);
    db.products := db.products[id := q];
    r := Ok(q);
  }

  // ---------------------------------------------------------------------
  // getAllProducts and getProductById

  /** Every stored product that satisfies the query and whose owner passes
      the owner filter, in store order. */
  method GetAllProducts(db: Db, q: Query) returns (r: seq<Product>)
    requires db.Valid()
    ensures forall p :: p in r <==> p in db.products.Values && Matches(p, db.shopkeepers, q)
    ensures IsSubsequence(r, Listing(db.productOrder, db.products))
  {
    var listed := Listing(db.productOrder, db.products);
    r := Search(listed, db.shopkeepers, q);
    forall p ensures p in listed <==> p in db.products.Values {
      if p in db.products.Values {
        var id :| id in db.products && db.products[id] == p;
        var i :| 0 <= i < |db.productOrder| && db.productOrder[i] == id;
        assert listed[i] == p;
      }
    }
  }

  method GetProductById(db: Db, id: ProductId) returns (r: Result<Product>)
    ensures id !in db.products ==> r == Err(ProductNotFound)
    ensures id in db.products ==> r == Ok(db.products[id])
  {
    if id !in db.products {
      return Err(ProductNotFound);
    }
    r := Ok(db.products[id]);
  }

  // ---------------------------------------------------------------------
  // likeAndUnlikeProduct

  /** The event handed to the notification service when a product is liked:
      it goes to the owner's account. */
  datatype Notice = Notice(recipient: UserId, productName: Option<string>, userName: string)

  /** What reading `userId` off a null owner throws. */
  const NullOwnerMessage := "Cannot read properties of null (reading 'userId')"

  /** Ok(None) is the handler returning without sending any response. */
  method LikeAndUnlikeProduct(db: Db, id: ProductId, userId: Option<UserId>, name: Option<string>)
    returns (r: Result<Option<string>>, notice: Option<Notice>)
    requires db.Valid()
    modifies db
    ensures db.Valid()
    ensures db.users == old(db.users) && db.shopkeepers == old(db.shopkeepers)
    ensures db.productOrder == old(db.productOrder)
    ensures id !in old(db.products) ==>
              r == Err(ProductNotFound) && notice == None && db.products == old(db.products)
    ensures id in old(db.products) && !Truthy(userId) ==>
              r == Ok(None) && notice == None && db.products == old(db.products)
    ensures id in old(db.products) && Truthy(userId) ==>
              var p, u := old(db.products)[id], userId.value;
              && db.products == old(db.products)[id := p.(likes := ToggledLikes(p.likes, u))]
              && (u in p.likes ==> r == Ok(Some("product Unliked")) && notice == None)
              && (u !in p.likes && p.owner in db.shopkeepers ==>
                    r == Ok(Some("product Liked")) &&
                    notice == Some(Notice(db.shopkeepers[p.owner].userId, p.productName,
                                          OrString(name, userId).value)))
              && (u !in p.likes && p.owner !in db.shopkeepers ==>
                    r == Err(Failure(500, NullOwnerMessage)) && notice == None)
  {
    notice := None;
    if id !in db.products {
      return Err(ProductNotFound), None;
    }
    if !Truthy(userId) {
      return Ok(None), None;
    }
    var p := db.products[id];
    var u := userId.value;
    UpsertsKeepConsistency(p, u, "", 0);
    var liked := p.(likes := ToggledLikes(p.likes, u));
    ReplacedProductKeepsStore(db.products, db.productOrder, db.shopkeepers, id, liked);
    db.products := db.products[id := liked];
    if u in p.likes {
      r := Ok(Some("product Unliked"));
    } else if p.owner !in db.shopkeepers {
      r := Err(Failure(500, NullOwnerMessage));
    } else {
      notice := Some(Notice(db.shopkeepers[p.owner].userId, p.productName, OrString(name, userId).value));
      r := Ok(Some("product Liked"));
    }
  }

  // ---------------------------------------------------------------------
  // commentOnProduct

  /** The `forEach` scan: every matching comment overwrites the index, so
      the last one wins. */
  method FindCommentIndex(comments: seq<Comment>, userId: UserId) returns (commentIndex: int)
    ensures commentIndex == LastIndexOf(Commenters(comments), userId)
  {
    commentIndex := -1;
    var index := 0;
    while index < |comments|
      invariant 0 <= index <= |comments|
      invariant -1 <= commentIndex < index
      invariant 0 <= commentIndex ==> comments[commentIndex].user == userId
      invariant forall k :: commentIndex < k < index ==> comments[k].user != userId
    {
      if comments[index].user == userId {
        commentIndex := index;
      }
      index := index + 1;
    }
    var users := Commenters(comments);
    if 0 <= commentIndex {
      assert users[commentIndex] == userId;
    } else {
      assert userId !in users;
    }
  }

  /** Upserting a comment into a valid product keeps it valid exactly when
      the text is non-empty. */
  lemma CommentSaveValidity(p: Product, u: UserId, text: string)
    requires ValidProduct(p)
    ensures ValidProduct(p.(comments := UpsertedComments(p.comments, u, text))) <==> text != ""
  {
    var cs := UpsertedComments(p.comments, u, text);
    if text == "" {
      var k :| 0 <= k < |cs| && cs[k] == Comment(u, text);
      assert !CommentsHaveText(cs);
    } else {
      forall k | 0 <= k < |cs| ensures cs[k].comment != "" {
        if k < |p.comments| {
          assert cs[k] == p.comments[k] || cs[k] == Comment(u, text);
        }
      }
    }
  }

  /** Fails with 404 for an unknown product. Otherwise the user's comment is
      overwritten or appended; the schema's required text makes the save
      fail with 500, and store nothing, when the text is empty. */
  method CommentOnProduct(db: Db, id: ProductId, userId: UserId, text: string) returns (r: Result<string>)
    requires db.Valid()
    modifies db
    ensures db.Valid()
    ensures db.users == old(db.users) && db.shopkeepers == old(db.shopkeepers)
    ensures db.productOrder == old(db.productOrder)
    ensures id !in old(db.products) ==>
              r == Err(Failure(404, "product not found")) && db.products == old(db.products)
    ensures id in old(db.products) && text == "" ==>
              r == Err(Failure(500, "Product validation failed")) && db.products == old(db.products)
    ensures id in old(db.products) && text != "" ==>
              var p := old(db.products)[id];
              && db.products == old(db.products)[id := p.(comments := UpsertedComments(p.comments, userId, text))]
              && r == Ok(if userId in Commenters(p.comments) then "Comment Updated" else "Comment added")
  {
    if id !in db.products {
      return Err(Failure(404, "product not found"));
    }
    var p := db.products[id];
    var commentIndex := FindCommentIndex(p.comments, userId);
    var comments, message;
    if commentIndex != -1 {
      comments := p.comments[commentIndex := p.comments[commentIndex].(comment := text)];
      message := "Comment Updated";
    } else {
      comments := p.comments + [Comment(userId, text)];
      message := "Comment added";
    }
    var q := p.(comments := comments);
    assert comments == UpsertedComments(p.comments, userId, text);
    CommentSaveValidity(p, userId, text);
    if !ValidProduct(q) {
      return Err(Failure(500, "Product validation failed"));
    }
    UpsertsKeepConsistency(p, userId, text, 0);
    ReplacedProductKeepsStore(db.products, db.productOrder, db.shopkeepers, id, q);
    db.products := db.products[id := q];
    r := Ok(message);
  }

  // ---------------------------------------------------------------------
  // ratingOnProduct

  /** Fails with 404 for an unknown product. Otherwise the user's rating is
      updated or appended, whatever its value, and `overallRating` becomes
      the rounded mean of the new list. */
  method RatingOnProduct(db: Db, id: ProductId, userId: UserId, rating: int) returns (r: Result<string>)
    requires db.Valid()
    modifies db
    ensures db.Valid()
    ensures db.users == old(db.users) && db.shopkeepers == old(db.shopkeepers)
    ensures db.productOrder == old(db.productOrder)
    ensures id !in old(db.products) ==>
              r == Err(ProductNotFound) && db.products == old(db.products)
    ensures id in old(db.products) ==>
              r == Ok("Rating submitted successfully") &&
              db.products == old(db.products)[id := Rated(old(db.products)[id], userId, rating)]
  {
    if id !in db.products {
      return Err(ProductNotFound);
    }
    var p := db.products[id];
    var existing := FirstIndexOf(Raters(p.ratings), userId);
    var ratings;
    if existing != -1 {
      ratings := p.ratings[existing := p.ratings[existing].(rating := rating)];
    } else {
      ratings := p.ratings + [Rating(userId, rating)];
    }
    var totalRating := Sum(ratings);
    var q := p.(ratings := ratings, overallRating := Some(RoundTenths(totalRating, |ratings|)));
    assert q == Rated(p, userId, rating);
    UpsertsKeepConsistency(p, userId, "", rating);
    ReplacedProductKeepsStore(db.products, db.productOrder, db.shopkeepers, id, q);
    db.products := db.products[id := q];
    r := Ok("Rating submitted successfully");
  }
}
