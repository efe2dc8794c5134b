# Marketplace product catalog — a Dafny model

This project models the core of a multi-shop marketplace backend. Shopkeepers
list products, and customers search, like, comment on and rate them. The
modelled handlers are:

- `createProduct`, `updateProduct`, `getAllProducts`, `getProductById`,
  `likeAndUnlikeProduct`, `commentOnProduct` and `ratingOnProduct`, from
  `backend/controller/product.js`;
- `createShopkeeper`, `updateShopkeeper` and `getShopkeeper`, from
  `backend/controller/shopkeeper.js`;
- the validators of the product schema in `backend/model/product.js`.

Modules:

- `Common`: option/result types, JavaScript truthiness (`x || current`),
  the canonical document-id form (24 lower-case hex digits),
  case-insensitive substring search,
  and `indexOf`-style lookups.
- `ProductModel`: the product document, plus `ValidProduct`, which holds
  what the schema's validators check when a product is saved.
- `Interactions`: the like toggle, the comment and rating upserts, and the
  rounded mean rating, as functions on the product's lists. Lemmas prove
  the invariants these operations keep: no duplicate like, one comment and
  one rating per user, and an aggregate that matches the ratings.
- `ShopModel`: the user and shopkeeper documents.
- `ProductSearch`: the filter `getAllProducts` applies, including the
  owner lookup and the city filter.
- `Store`: a class `Db` holding the users, shops and products, each in a
  map, together with the order in which products are listed. `Db.Valid()`
  is the store invariant:
  - every product satisfies the schema and the interaction invariants;
  - every shop's product list names products it owns, each once;
  - each account owns at most one shop.
- `ProductController` and `ShopkeeperController`: one method per handler.
  Each method says, in its `ensures`, which response it gives on each
  branch and what the store holds afterwards, and it keeps `Db.Valid()`.

A handler's response is a `Result`. `Err(Failure(status, message))` is an
error response with the source's status code and message. Store-assigned
ids, such as the id of a new document, are parameters of the methods.

Behaviours of the code that a caller may not expect, which the model keeps:

- A rating is stored whatever its value. No range check rejects 0 or 6.
- Empty comment text is rejected only by the schema's `required` validator
  at save time. The response is then a 500 with the validation message;
  the controller has no text check of its own.
- Unliking and then liking again restores the same set of likes, but the
  user's id moves to the end of the list.
- `minPrice`/`maxPrice` of 0 are falsy and so do not constrain anything.

## Model

| member | source | states |
|---|---|---|
| Common.FirstIndexOf | backend/controller/product.js:175-176 | -1 exactly when the element is absent; otherwise the position of its first occurrence |
| Common.LastIndexOf | backend/controller/product.js:229-237 | -1 exactly when the element is absent; otherwise the position of its last occurrence |
| Common.EmptyTermMatches | backend/controller/product.js:93-105 | the empty search term occurs, ignoring case, in every string |
| ProductModel.ValidProduct | backend/model/product.js:3-51 | the schema accepts a product exactly when any price lies in 1..10000, any discount percentage in 0..99, and every comment has non-empty text; the image list is never refused |
| ProductModel.DiscountIsNotValidated | backend/model/product.js:23-27 | the schema bounds `discountPercentage`, so any value of the controller's `discount` keeps a valid product valid |
| ProductModel.AppendedCommentValidity | backend/model/product.js:39-50 | appending a comment keeps the product valid exactly when the comment's text is non-empty |
| Interactions.ToggledLikes | backend/controller/product.js:175-188 | a liked user is removed at their first position and nothing else moves; an unliked user is appended |
| Interactions.ToggleKeepsLikesUnique | backend/controller/product.js:175-188 | toggling keeps likes duplicate-free, flips the user's membership and leaves every other user's membership unchanged |
| Interactions.UnlikeKeepsUnique | backend/controller/product.js:175-178 | removing a liked user leaves that user absent and the list duplicate-free |
| Interactions.ToggleTwiceRestores | backend/controller/product.js:175-188 | like then unlike, starting from not liked, gives back the original list |
| Interactions.UnlikeThenLike | backend/controller/product.js:175-188 | unlike then like, starting from liked, gives the same multiset of likes with the user moved to the end |
| Interactions.UpsertedComments | backend/controller/product.js:229-252 | when the user has a comment, the length is unchanged and only the position of the user's last comment is rewritten, with the new text; otherwise the comment is appended; the new comment is always present |
| Interactions.UpsertKeepsOneCommentPerUser | backend/controller/product.js:229-252 | with at most one comment per user before, there is still at most one after, and every comment of the user holds the new text |
| Interactions.UpsertedRatings | backend/controller/product.js:280-285 | when the user has a rating, the length is unchanged and only the position of the user's first rating is updated; otherwise the rating is appended |
| Interactions.UpsertKeepsOneRatingPerUser | backend/controller/product.js:280-285 | with at most one rating per user before, there is still at most one after, and every rating of the user holds the new value |
| Common.FirstIsLastWhenUnique | backend/controller/product.js:229-237 | on a duplicate-free list, the last-match scan and the first-match lookup find the same position |
| Interactions.Sum | backend/controller/product.js:288 | the total of the ratings' values, as the `reduce` from 0 computes it |
| Interactions.SumAfterUpdate | backend/controller/product.js:280-288 | updating one rating in place changes the total by the difference between the new and the old value |
| Interactions.MeanTenths | backend/controller/product.js:288-289 | the aggregate, in tenths, lies within half a tenth of the exact mean of the ratings |
| Interactions.RoundTenths | backend/controller/product.js:289 | the result, in tenths, lies within half a tenth of the exact mean; a tie rounds away from zero |
| Interactions.Rated | backend/controller/product.js:280-291 | only the ratings and the aggregate change, and the aggregate is the rounded mean of the new ratings |
| Interactions.InteractionsConsistent | backend/controller/product.js:159-299 | the invariant the three mutations keep: likes without duplicates, one comment and one rating per user, and an aggregate that is absent without ratings and the rounded mean otherwise |
| Interactions.UpsertsKeepConsistency | backend/controller/product.js:175-291 | the like toggle, the comment upsert and the rating upsert each keep all the interaction invariants |
| Interactions.SumBounds | backend/controller/product.js:288 | per-rating bounds bound the reduced sum |
| Interactions.MeanWithinScale | backend/controller/product.js:288-291 | with all ratings on the 1..5 scale, the aggregate lies between 1.0 and 5.0 |
| ProductSearch.Search | backend/controller/product.js:91-118 | a product is in the result exactly when it is stored and matches the query and its owner resolves (and passes the city filter); store order is kept |
| ProductSearch.SearchIsIdempotent | backend/controller/product.js:102-118 | searching a search result again with the same query changes nothing |
| ProductSearch.UnresolvedOwnerIsDropped | backend/controller/product.js:113-118 | a product whose owner does not resolve is never returned |
| ProductSearch.PriceWindow | backend/controller/product.js:99-106 | with both price bounds non-zero, a price passes exactly when it lies between them |
| ProductSearch.ZeroMaxPriceHasNoCeiling | backend/controller/product.js:100 | a maximum price of 0 gives the same result as no maximum |
| ProductSearch.UnratedNeedsNoFloor | backend/controller/product.js:98-111 | an unrated stored product is returned exactly when no rating floor is given and it passes every other filter |
| ProductSearch.EmptyTermMatchesPresentField | backend/controller/product.js:93-105 | an absent term matches every field that is present |
| ProductSearch.NarrowerQueryNarrows | backend/controller/product.js:102-118 | a query that accepts fewer products returns a subsequence of the other query's result |
| ProductSearch.CityFilterNarrows | backend/controller/product.js:113-118 | a city filter only removes products from the unfiltered result and keeps their order |
| ProductSearch.RatingFloorNarrows | backend/controller/product.js:109-111 | a rating floor only removes products from the result without one and keeps their order |
| Store.Db.Valid | backend/controller/product.js:10-299 | the store invariant every handler keeps: each stored product passes the schema and keeps the interaction invariants under its own lower-case document id; each shop lists products it owns, each once; each account owns at most one shop |
| ProductController.Created | backend/controller/product.js:32-41 | the new product has the shop as owner, an empty image list when none is supplied, and no likes, comments or ratings, and satisfies the interaction invariants |
| ProductController.CreatedValidity | backend/controller/product.js:32-43 | the new product passes the schema exactly when any price lies in 1..10000; the image list and the discount are never refused |
| ProductController.CreateProduct | backend/controller/product.js:10-50 | 400 when no shop belongs to the owner account; 500 with nothing stored exactly when a shop is found and the price is outside 1..10000; otherwise the product is stored, listed last, with its price in range |
| ProductController.Patched | backend/controller/product.js:74-80 | every supplied truthy field replaces the current value, and any supplied image list does, even an empty one; a falsy field keeps the current value; nothing else changes |
| ProductController.FalsyPatchKeepsProduct | backend/controller/product.js:74-80 | a patch with only falsy fields leaves the product unchanged |
| ProductController.PatchIsIdempotent | backend/controller/product.js:74-80 | applying the same patch twice equals applying it once |
| ProductController.PatchedValidity | backend/controller/product.js:74-82 | a patched valid product stays valid exactly when any supplied price lies in 1..10000 |
| ProductController.UpdateProduct | backend/controller/product.js:52-89 | 404 for an unknown id; otherwise the update succeeds exactly when any supplied truthy price lies in 1..10000, and then the patched product is stored; on a 500 nothing is stored |
| ProductController.GetAllProducts | backend/controller/product.js:91-125 | returns exactly the stored products that match the query and whose owner passes the filter, in listing order |
| ProductController.GetProductById | backend/controller/product.js:127-157 | 404 for an unknown id; otherwise the stored product |
| ProductController.LikeAndUnlikeProduct | backend/controller/product.js:159-215 | 404 for an unknown product; no response and no change without a user id; otherwise the like is toggled and saved; a like notifies the owner's account, or fails with 500 after the save when the owner is missing |
| ProductController.FindCommentIndex | backend/controller/product.js:229-237 | the scan returns the last position of the user's comment, or -1 |
| ProductController.CommentSaveValidity | backend/controller/product.js:239-254 | upserting a comment keeps a valid product valid exactly when the text is non-empty |
| ProductController.CommentOnProduct | backend/controller/product.js:217-266 | 404 for an unknown product; 500 with nothing stored for empty text; otherwise the comment is upserted, with "Comment Updated" exactly when the user had one |
| ProductController.RatingOnProduct | backend/controller/product.js:270-299 | 404 for an unknown product; otherwise the rating is upserted whatever its value, and the aggregate becomes the rounded mean |
| ShopkeeperController.NewShop | backend/controller/shopkeeper.js:41-47 | the new shop belongs to the requesting account, carries the request's name, address and description and its contact list (empty when none is supplied), and has no products |
| ShopkeeperController.CreateShopkeeper | backend/controller/shopkeeper.js:5-62 | 400 for an unknown user, for a role other than shopkeeper, and for an account that already has a shop, in that order; otherwise the shop is stored and the one-shop-per-account invariant holds |
| ShopkeeperController.SecondShopIsRefused | backend/controller/shopkeeper.js:32-39 | adding a shop keeps one shop per account exactly when the account had none |
| ShopkeeperController.Joined | backend/controller/shopkeeper.js:106 | the list's text, ids joined by commas; for n document ids it is 25n-1 characters long |
| ShopkeeperController.MemberOccursInJoined | backend/controller/shopkeeper.js:106 | an attached id always occurs in the comma-joined list |
| ShopkeeperController.JoinedOccurrenceIsMember | backend/controller/shopkeeper.js:106 | with 24-hex-digit ids, an id occurring in the comma-joined list is one of its entries |
| ShopkeeperController.JoinedContainsIsMembership | backend/controller/shopkeeper.js:105-112 | with 24-hex-digit ids, the substring test on the joined list is exactly list membership |
| ShopkeeperController.PrefixIdReadsAsAttached | backend/controller/shopkeeper.js:106 | without the fixed-length form, an id that is a prefix of an attached one reads as attached |
| ShopkeeperController.UpdatedShop | backend/controller/shopkeeper.js:114-123 | each truthy detail replaces the current one, and the product id is appended with the earlier ids unchanged |
| ShopkeeperController.AppendKeepsUnique | backend/controller/shopkeeper.js:120-123 | appending an id not in a duplicate-free list keeps it duplicate-free |
| ShopkeeperController.UpdateShopkeeper | backend/controller/shopkeeper.js:64-131 | 400 for an unknown shop, an unknown product, a product of another shop, and an already attached product, in that order; otherwise the details are updated and the product attached once |
| ShopkeeperController.GetShopkeeper | backend/controller/shopkeeper.js:133-150 | 400 without an id; 404 when the account has no shop; otherwise that account's stored shop |

## Left out

- The notification service and its failures are left out. `LikeAndUnlikeProduct` returns the event it would send; a failure of the send, after the save, is not modelled.
- HTTP plumbing is left out: success status codes, the response bodies beyond their messages, and routing. The frontend is not part of this model.
- Store internals are left out: `populate` projections (`getAllProducts` returns each product with its owner's id rather than the populated shop document, and `getProductById` and `getShopkeeper` return the stored documents), the cast error a malformed id raises, and the generic 500 responses those catch blocks send.
- Strict-mode schemas drop fields the product schema does not declare (`discount`, `productCategory`, `productSubcategory`, `ratings`, `overallRating`). The model keeps these fields as the controllers use them.
- The schema's `category` field is not modelled; the controller never writes it.
- The schema's `discountPercentage` bound is modelled. The controller writes `discount`, which no validator checks.
- `imageUrls` follows current Mongoose: an array path defaults to `[]`, and `required` on it rejects only a missing value, so no image list is refused. Under Mongoose 4, which also rejects an empty list, a create without images and an update supplying `[]` would fail instead.
- GetAllProducts: query terms are literal text, so `$regex` metacharacters are not modelled. Case-insensitivity covers ASCII letters only, with no Unicode case folding.
- Stored prices and rating values are whole numbers: the model cannot hold a price such as 9.99 or a rating such as 4.5.
- GetAllProducts: fractional query prices are not modelled; the query's prices are integers and its rating floor is an integer number of tenths.
- GetAllProducts: `Number.MAX_VALUE` as the default ceiling is modelled as no ceiling.
- The rating floor: `rating` arrives as query text and `overallRating` is saved as the text `toFixed(1)` returns, so the store compares two strings. The model compares tenths as numbers; the string comparison is not modelled.
- RatingOnProduct: the aggregate is the exact mean rounded half away from zero, in tenths. Binary floating-point misrounding of `toFixed` is not modelled.
- RatingOnProduct and CommentOnProduct: a missing `userId` in the request is not modelled; the user id is always given. Absent comment text is modelled as the empty string, which the schema rejects as well.
- CommentOnProduct: the 500 message is the leading "Product validation failed" of the store's validation message. The field details that follow it are not modelled.
- CreateShopkeeper: `backend/model/shopkeeper.js` is not part of this model. Contact-number validation and its 400 "Invalid contact number." branch are therefore not modelled, and every shop save succeeds.
- The users' schema (`backend/model/auth.js`) is not part of this model; only an account's role is kept.
- The `createdAt` timestamp is left out because it depends on the clock.
- Ids are assumed to be in the canonical lower-case form. An upper-case id names the same document in the store but differs as text, so it passes all three duplicate tests (`includes` at backend/controller/product.js:175, `===` at backend/controller/product.js:234, `String.includes` at backend/controller/shopkeeper.js:106). The source then stores the same id twice; this is not modelled.
- RatingOnProduct: a request without `rating` is not modelled. The source stores an entry with no value, the sum becomes NaN, and "NaN" is saved as the aggregate.
- CreateProduct: a request without `owner` is not modelled. The source then looks up a shop with no user id.
- Concurrency is left out. Each handler runs as one atomic step, so the lost-update race between interleaved read-modify-write requests is not modelled.
