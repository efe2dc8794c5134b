/** The shopkeeper handlers of backend/controller/shopkeeper.js: onboarding
    a shop, updating it and attaching a product to it, and reading it back.
    Each handler runs its checks in order and fails before anything is
    saved. */
module ShopkeeperController {
  import opened Common
  import opened ProductModel
  import opened ShopModel
  import opened Store

  /** Some shop belongs to the account `userId` (`findOne({ userId })`). */
  predicate HasShop(shops: map<ShopkeeperId, Shopkeeper>, userId: UserId) {
    exists sid :: sid in shops && shops[sid].userId == userId
  }

  // ---------------------------------------------------------------------
  // createShopkeeper

  datatype NewShopkeeper = NewShopkeeper(
    userId: UserId,
    shopName: Option<string>,
    shopAddress: Option<Address>,
    shopDescription: Option<string>,
    contactNumber: Option<seq<string>>
  )

  /** The document `new Shopkeeper({...})` builds: an absent contact list
      defaults to an empty one, and no product is attached yet. */
  function NewShop(id: ShopkeeperId, req: NewShopkeeper): (s: Shopkeeper)
    ensures s.id == id && s.userId == req.userId && s.products == []
    ensures s.shopName == req.shopName && s.shopAddress == req.shopAddress
    ensures s.shopDescription == req.shopDescription
    ensures s.contactNumber == (if req.contactNumber.Some? then req.contactNumber.value else [])
  {
    Shopkeeper(id, req.userId, req.shopName, req.shopAddress, req.shopDescription,
               OrObject(req.contactNumber, []), [])
  }

  /** The shop is filed under a new store-assigned id `newId`. The checks,
      in order: the user exists, the user's role is "shopkeeper", the user
      has no shop yet. */
  method CreateShopkeeper(db: Db, newId: ShopkeeperId, req: NewShopkeeper) returns (r: Result<string>)
    requires db.Valid() && newId !in db.shopkeepers
    modifies db
    ensures db.Valid()
    ensures db.users == old(db.users) && db.products == old(db.products)
    ensures db.productOrder == old(db.productOrder)
    ensures req.userId !in db.users ==> r == Err(Failure(400, "User not found"))
    ensures req.userId in db.users && db.users[req.userId].role != ShopkeeperRole ==>
              r == Err(Failure(400, "Your role is not shopkeeper"))
    ensures req.userId in db.users && db.users[req.userId].role == ShopkeeperRole &&
            HasShop(old(db.shopkeepers), req.userId) ==>
              r == Err(Failure(400, "Shopkeeper already created"))
    ensures req.userId in db.users && db.users[req.userId].role == ShopkeeperRole &&
            !HasShop(old(db.shopkeepers), req.userId) ==>
              r == Ok("Shopkeeper created successfully") &&
              db.shopkeepers == old(db.shopkeepers)[newId := NewShop(newId, req)]
    ensures r.Err? ==> db.shopkeepers == old(db.shopkeepers)
  {
    if req.userId !in db.users {
      return Err(Failure(400, "User not found"));
    }
    if db.users[req.userId].role != ShopkeeperRole {
      return Err(Failure(400, "Your role is not shopkeeper"));
    }
    if HasShop(db.shopkeepers, req.userId) {
      return Err(Failure(400, "Shopkeeper already created"));
    }
    var s := NewShop(newId, req);
    assert ShopProductsValid(newId, s, db.products);
    db.shopkeepers := db.shopkeepers[newId := s];
    r := Ok("Shopkeeper created successfully");
  }

  /** A user that already has a shop cannot get a second one, so each
      account owns at most one shop. */
  lemma SecondShopIsRefused(shops: map<ShopkeeperId, Shopkeeper>, newId: ShopkeeperId, req: NewShopkeeper)
    requires OneShopPerUser(shops) && newId !in shops
    ensures !HasShop(shops, req.userId) ==> OneShopPerUser(shops[newId := NewShop(newId, req)])
    ensures HasShop(shops, req.userId) ==> !OneShopPerUser(shops[newId := NewShop(newId, req)])
  {
    if HasShop(shops, req.userId) {
      var sid :| sid in shops && shops[sid].userId == req.userId;
      var after := shops[newId := NewShop(newId, req)];
      assert after[sid].userId == after[newId].userId && sid != newId;
    }
  }

  // ---------------------------------------------------------------------
  // The duplicate-product check

  /** `String(list)` for a list of ids: the ids joined by commas. */
  function Joined(ids: seq<string>): (r: string)
    ensures |ids| > 0 && (forall i :: 0 <= i < |ids| ==> IsObjectId(ids[i])) ==> |r| == 25 * |ids| - 1
  {
    if |ids| == 0 then ""
    else if |ids| == 1 then ids[0]
    else ids[0] + "," + Joined(ids[1..])
  }

  /** An id in the list always occurs in the joined text. */
  lemma {:induction false} MemberOccursInJoined(ids: seq<string>, x: string)
    requires x in ids
    ensures Contains(Joined(ids), x)
  {
    var joined := Joined(ids);
    if ids[0] == x {
      if |ids| > 1 {
        assert joined == x + "," + Joined(ids[1..]);
      }
      assert joined[0..|x|] == x;
      assert OccursAt(joined, x, 0);
    } else {
      MemberOccursInJoined(ids[1..], x);
      var rest := Joined(ids[1..]);
      var k :| 0 <= k <= |rest| - |x| && OccursAt(rest, x, k);
      var head := ids[0] + ",";
      assert joined == head + rest;
      assert joined[|head| + k..|head| + k + |x|] == rest[k..k + |x|];
      assert OccursAt(joined, x, |head| + k);
    }
  }

  /** When every id has the 24-digit document-id form, an id occurring in
      the joined text is one of the ids: the text between two commas is a
      whole id, and no id contains a comma. */
  lemma {:induction false} JoinedOccurrenceIsMember(ids: seq<string>, x: string, k: int)
    requires forall i :: 0 <= i < |ids| ==> IsObjectId(ids[i])
    requires IsObjectId(x)
    requires OccursAt(Joined(ids), x, k)
    ensures x in ids
  {
    var joined := Joined(ids);
    if |ids| == 0 {
      assert false;
    } else if |ids| == 1 {
      assert x == joined == ids[0];
    } else {
      var rest := Joined(ids[1..]);
      assert joined == ids[0] + "," + rest;
      // A window starting inside the first id would cover its comma, which
      // is no hex digit.
      assert joined[24] == ',' && !IsHexDigit(',');
      assert forall j :: k <= j < k + |x| ==> joined[j] == x[j - k];
      if k == 0 {
        assert x == joined[..24] == ids[0];
      } else {
        assert rest[k - 25..k - 25 + |x|] == joined[k..k + |x|];
        JoinedOccurrenceIsMember(ids[1..], x, k - 25);
      }
    }
  }

  /** For document ids, the substring test on the joined list is exactly
      list membership. */
  lemma JoinedContainsIsMembership(ids: seq<string>, x: string)
    requires forall i :: 0 <= i < |ids| ==> IsObjectId(ids[i])
    requires IsObjectId(x)
    ensures Contains(Joined(ids), x) <==> x in ids
  {
    if x in ids {
      MemberOccursInJoined(ids, x);
    }
    if Contains(Joined(ids), x) {
      var k :| 0 <= k <= |Joined(ids)| - |x| && OccursAt(Joined(ids), x, k);
      JoinedOccurrenceIsMember(ids, x, k);
    }
  }

  /** Without the fixed-length form the test misfires: an id that is a
      prefix of an attached one reads as already attached. */
  lemma PrefixIdReadsAsAttached()
    ensures Contains(Joined(["abc"]), "ab") && "ab" !in ["abc"]
  {
    assert OccursAt("abc", "ab", 0);
  }

  // ---------------------------------------------------------------------
  // updateShopkeeper

  datatype ShopkeeperUpdate = ShopkeeperUpdate(
    shopkeeperId: ShopkeeperId,
    shopName: Option<string>,
    shopAddress: Option<Address>,
    shopDescription: Option<string>,
    contactNumber: Option<seq<string>>,
    product: ProductId
  )

  /** Each detail becomes `supplied || current` (an address object or a
      contact list is truthy whenever supplied), and the product id goes to
      the end of the shop's list. */
  function UpdatedShop(s: Shopkeeper, x: ShopkeeperUpdate): (t: Shopkeeper)
    ensures t.id == s.id && t.userId == s.userId
    ensures t.shopName == (if Truthy(x.shopName) then x.shopName else s.shopName)
    ensures t.shopAddress == (if x.shopAddress.Some? then x.shopAddress else s.shopAddress)
    ensures t.shopDescription == (if Truthy(x.shopDescription) then x.shopDescription else s.shopDescription)
    ensures t.contactNumber == (if x.contactNumber.Some? then x.contactNumber.value else s.contactNumber)
    ensures |t.products| == |s.products| + 1 && t.products[..|s.products|] == s.products
    ensures t.products[|s.products|] == x.product
  {
    s.(shopName := OrString(x.shopName, s.shopName),
       shopAddress := if x.shopAddress.Some? then x.shopAddress else s.shopAddress,
       shopDescription := OrString(x.shopDescription, s.shopDescription),
       contactNumber := OrObject(x.contactNumber, s.contactNumber),
       products := s.products + [x.product])
  }

  /** Appending an id not yet in a duplicate-free list keeps it
      duplicate-free. */
  lemma AppendKeepsUnique(ids: seq<ProductId>, x: ProductId)
    requires NoDuplicates(ids) && x !in ids
    ensures NoDuplicates(ids + [x])
  {
    var r := ids + [x];
    forall a, b | 0 <= a < b < |r| ensures r[a] != r[b] {
      if b == |ids| {
        assert r[a] == ids[a];
      }
    }
  }

  /** The checks, in order: the shop exists, the product exists, the shop
      owns the product, the product is not attached yet. */
  method UpdateShopkeeper(db: Db, x: ShopkeeperUpdate) returns (r: Result<string>)
    requires db.Valid()
    modifies db
    ensures db.Valid()
    ensures db.users == old(db.users) && db.products == old(db.products)
    ensures db.productOrder == old(db.productOrder)
    ensures x.shopkeeperId !in old(db.shopkeepers) ==> r == Err(Failure(400, "Shopkeeper not found"))
    ensures x.shopkeeperId in old(db.shopkeepers) && x.product !in db.products ==>
              r == Err(Failure(400, "Product not found"))
    ensures x.shopkeeperId in old(db.shopkeepers) && x.product in db.products &&
            db.products[x.product].owner != x.shopkeeperId ==>
              r == Err(Failure(400, "You are not product owner"))
    ensures x.shopkeeperId in old(db.shopkeepers) && x.product in db.products &&
            db.products[x.product].owner == x.shopkeeperId &&
            x.product in old(db.shopkeepers)[x.shopkeeperId].products ==>
              r == Err(Failure(400, "Product already added to shopkeeper"))
    ensures x.shopkeeperId in old(db.shopkeepers) && x.product in db.products &&
            db.products[x.product].owner == x.shopkeeperId &&
            x.product !in old(db.shopkeepers)[x.shopkeeperId].products ==>
              r == Ok("Shopkeeper updated successfully") &&
              db.shopkeepers == old(db.shopkeepers)[x.shopkeeperId := UpdatedShop(old(db.shopkeepers)[x.shopkeeperId], x)]
    ensures r.Err? ==> db.shopkeepers == old(db.shopkeepers)
  {
    if x.shopkeeperId !in db.shopkeepers {
      return Err(Failure(400, "Shopkeeper not found"));
    }
    var s := db.shopkeepers[x.shopkeeperId];
    if x.product !in db.products {
      return Err(Failure(400, "Product not found"));
    }
    if db.products[x.product].owner != s.id {
      return Err(Failure(400, "You are not product owner"));
    }
    assert ShopProductsValid(x.shopkeeperId, s, db.products);
    forall i | 0 <= i < |s.products| ensures IsObjectId(s.products[i]) {
      assert StoredProduct(s.products[i], db.products[s.products[i]]);
    }
    assert StoredProduct(x.product, db.products[x.product]);
    JoinedContainsIsMembership(s.products, x.product);
    if Contains(Joined(s.products), x.product) {
      return Err(Failure(400, "Product already added to shopkeeper"));
    }
    // `if (product)` always holds here: the product was found above.
    var t := UpdatedShop(s, x);
    AppendKeepsUnique(s.products, x.product);
    assert ShopProductsValid(x.shopkeeperId, t, db.products);
    db.shopkeepers := db.shopkeepers[x.shopkeeperId := t];
    r := Ok("Shopkeeper updated successfully");
  }

  // ---------------------------------------------------------------------
  // getShopkeeper

  /** Fails with 400 when no id is given and with 404 when the account has
      no shop; otherwise answers with the account's one shop. */
  method GetShopkeeper(db: Db, id: Option<UserId>) returns (r: Result<Shopkeeper>)
    requires db.Valid()
    ensures !Truthy(id) ==> r == Err(Failure(400, "User ID is required"))
    ensures Truthy(id) && !HasShop(db.shopkeepers, id.value) ==> r == Err(Failure(404, "Shopkeeper not found"))
    ensures Truthy(id) && HasShop(db.shopkeepers, id.value) ==>
              r.Ok? && r.value.id in db.shopkeepers && db.shopkeepers[r.value.id] == r.value &&
              r.value.userId == id.value
  {
    if !Truthy(id) {
      return Err(Failure(400, "User ID is required"));
    }
    if !HasShop(db.shopkeepers, id.value) {
      return Err(Failure(404, "Shopkeeper not found"));
    }
    var sid :| sid in db.shopkeepers && db.shopkeepers[sid].userId == id.value;
    assert ShopProductsValid(sid, db.shopkeepers[sid], db.products);
    r := Ok(db.shopkeepers[sid]);
  }
}
