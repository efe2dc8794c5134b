/** The product document and the constraints its schema places on it
    (backend/model/product.js).

    The record carries the fields the product controller reads and writes.
    Some of them are not declared by the schema (`discount`,
    `productCategory`, `productSubcategory`, `ratings`, `overallRating`),
    and the schema declares `discountPercentage` and `category`, which the
    controller never writes. The record keeps `discountPercentage` so that
    the schema's discount bound can be stated on the field it names; the
    bound therefore never constrains the controller's `discount`. */
module ProductModel {
  import opened Common

  /** One entry of `comments`. */
  datatype Comment = Comment(user: UserId, comment: string)

  /** One entry of `ratings`. */
  datatype Rating = Rating(userId: UserId, rating: int)

  datatype Product = Product(
    id: ProductId,
    productName: Option<string>,
    caption: Option<string>,
    /** An array path: the store defaults it to an empty list, so it is
        never missing and its `required` validator never fails. */
    imageUrls: seq<string>,
    /** The id of the owning shopkeeper document (not a user id). */
    owner: ShopkeeperId,
    price: Option<int>,
    /** Written by the controller; not declared by the schema. */
    discount: Option<int>,
    /** Declared by the schema; never written by the controller. */
    discountPercentage: Option<int>,
    productCategory: Option<string>,
    productSubcategory: Option<string>,
    /** User ids; the schema puts no uniqueness constraint on this list. */
    likes: seq<UserId>,
    comments: seq<Comment>,
    ratings: seq<Rating>,
    /** The mean rating in tenths (4.5 is 45); absent until the first rating. */
    overallRating: Option<int>
  )

  const MinPrice := 1
  const MaxPrice := 10000
  const MinDiscount := 0
  const MaxDiscount := 99

  /** A number path with `min` and `max` validators: an absent value is not
      validated. */
  predicate InRange(x: Option<int>, lo: int, hi: int) {
    x.Some? ==> lo <= x.value <= hi
  }

  /** Every comment carries its required, non-empty text. */
  predicate CommentsHaveText(comments: seq<Comment>) {
    forall i :: 0 <= i < |comments| ==> comments[i].comment != ""
  }

  /** What the schema's validators accept when a product is saved. */
  predicate ValidProduct(p: Product) {
    && InRange(p.price, MinPrice, MaxPrice)
    && InRange(p.discountPercentage, MinDiscount, MaxDiscount)
    && CommentsHaveText(p.comments)
  }

  /** The schema's discount bound does not reach the controller's `discount`
      field: any discount at all leaves a valid product valid. */
  lemma DiscountIsNotValidated(p: Product, d: int)
    requires ValidProduct(p)
    ensures ValidProduct(p.(discount := Some(d)))
  {
  }

  /** Appending a comment keeps the schema satisfied exactly when its text is
      non-empty. */
  lemma {:induction false} AppendedCommentValidity(p: Product, c: Comment)
    requires ValidProduct(p)
    ensures ValidProduct(p.(comments := p.comments + [c])) <==> c.comment != ""
  {
    var cs := p.comments + [c];
    assert cs[|cs| - 1] == c;
  }
}
