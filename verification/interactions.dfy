/** The per-user mutations of a product, as functions on its lists: the like
    toggle, the comment upsert and the rating upsert with the recomputed
    mean (backend/controller/product.js). The handlers that fetch, mutate
    and save a product are in ProductController. */
module Interactions {
  import opened Common
  import opened ProductModel

  // ---------------------------------------------------------------------
  // Likes

  /** `likes.splice(likes.indexOf(u), 1)` when `u` is liked, else
      `likes.push(u)`. */
  function ToggledLikes(likes: seq<UserId>, u: UserId): (r: seq<UserId>)
    ensures u in likes ==> |r| == |likes| - 1 && multiset(r) == multiset(likes) - multiset{u}
    ensures u in likes ==>
              var i := FirstIndexOf(likes, u);
              r[..i] == likes[..i] && r[i..] == likes[i + 1..]
    ensures u !in likes ==> r == likes + [u]
  {
    if u in likes then
      var i := FirstIndexOf(likes, u);
      assert likes == likes[..i] + [u] + likes[i + 1..];
      likes[..i] + likes[i + 1..]
    else
      likes + [u]
  }

  /** Toggling keeps the likes free of duplicates, flips the user's
      membership and leaves every other user's membership alone. */
  lemma {:induction false} ToggleKeepsLikesUnique(likes: seq<UserId>, u: UserId)
    requires NoDuplicates(likes)
    ensures NoDuplicates(ToggledLikes(likes, u))
    ensures u in ToggledLikes(likes, u) <==> u !in likes
    ensures forall v :: v != u ==> (v in ToggledLikes(likes, u) <==> v in likes)
  {
    if u in likes {
      UnlikeKeepsUnique(likes, u);
    } else {
      var r := ToggledLikes(likes, u);
      forall a, b | 0 <= a < b < |r| ensures r[a] != r[b] {
        if b == |likes| {
          assert r[a] == likes[a];
        }
      }
    }
  }

  /** Entries after the removed index move one place to the left. */
  lemma RemovedAt(likes: seq<UserId>, i: nat, k: nat)
    requires i < |likes| && k < |likes| - 1
    ensures (likes[..i] + likes[i + 1..])[k] == likes[if k < i then k else k + 1]
  {
  }

  lemma UnlikeKeepsUnique(likes: seq<UserId>, u: UserId)
    requires NoDuplicates(likes) && u in likes
    ensures NoDuplicates(ToggledLikes(likes, u))
    ensures u !in ToggledLikes(likes, u)
    ensures forall v :: v != u ==> (v in ToggledLikes(likes, u) <==> v in likes)
  {
    var r := ToggledLikes(likes, u);
    var i := FirstIndexOf(likes, u);
    RemovalKeepsUnique(likes, i);
    forall v | v != u ensures v in r <==> v in likes {
      assert multiset(r)[v] == multiset(likes)[v];
    }
  }

  lemma RemovalKeepsUnique(likes: seq<UserId>, i: nat)
    requires NoDuplicates(likes) && i < |likes|
    ensures NoDuplicates(likes[..i] + likes[i + 1..])
    ensures likes[i] !in likes[..i] + likes[i + 1..]
  {
    var r := likes[..i] + likes[i + 1..];
    forall a, b | 0 <= a < b < |r| ensures r[a] != r[b] {
      RemovedAt(likes, i, a);
      RemovedAt(likes, i, b);
    }
    forall k | 0 <= k < |r| ensures r[k] != likes[i] {
      RemovedAt(likes, i, k);
    }
  }

  /** Liking and then unliking gives back exactly the original likes. */
  lemma {:induction false} ToggleTwiceRestores(likes: seq<UserId>, u: UserId)
    requires u !in likes
    ensures ToggledLikes(ToggledLikes(likes, u), u) == likes
  {
    var once := likes + [u];
    assert ToggledLikes(likes, u) == once;
    var i := FirstIndexOf(once, u);
    assert i == |likes|;
    assert once[..i] == likes;
  }

  /** Unliking and then liking again restores the liked state and the same
      users, but the user's id moves to the end of the list. */
  lemma {:induction false} UnlikeThenLike(likes: seq<UserId>, u: UserId)
    requires NoDuplicates(likes) && u in likes
    ensures ToggledLikes(ToggledLikes(likes, u), u) == ToggledLikes(likes, u) + [u]
    ensures multiset(ToggledLikes(ToggledLikes(likes, u), u)) == multiset(likes)
  {
    ToggleKeepsLikesUnique(likes, u);
    var once := ToggledLikes(likes, u);
    assert u !in once;
  }

  // ---------------------------------------------------------------------
  // Comments

  /** The authors of the comments, in order. */
  function Commenters(comments: seq<Comment>): (r: seq<UserId>)
    ensures |r| == |comments|
    ensures forall i :: 0 <= i < |comments| ==> r[i] == comments[i].user
  {
    seq(|comments|, i requires 0 <= i < |comments| => comments[i].user)
  }

  /** The comment scan keeps overwriting its index, so it finds the user's
      last comment; the update writes the new text there and nowhere else,
      and a user without a comment gets a new one appended. */
  function UpsertedComments(comments: seq<Comment>, u: UserId, text: string): (r: seq<Comment>)
    ensures u in Commenters(comments) ==> |r| == |comments|
    ensures u !in Commenters(comments) ==> r == comments + [Comment(u, text)]
    ensures forall k :: 0 <= k < |comments| ==>
              r[k] == comments[k] || (comments[k].user == u && r[k] == Comment(u, text))
    ensures forall k :: 0 <= k < |comments| && r[k] != comments[k] ==>
              k == LastIndexOf(Commenters(comments), u)
    ensures exists k :: 0 <= k < |r| && r[k] == Comment(u, text)
  {
    var i := LastIndexOf(Commenters(comments), u);
    if i == -1 then
      assert (comments + [Comment(u, text)])[|comments|] == Comment(u, text);
      comments + [Comment(u, text)]
    else comments[i := comments[i].(comment := text)]
  }

  /** At most one comment per user survives every upsert, and afterwards the
      user's one comment holds the new text. */
  lemma {:induction false} UpsertKeepsOneCommentPerUser(comments: seq<Comment>, u: UserId, text: string)
    requires NoDuplicates(Commenters(comments))
    ensures NoDuplicates(Commenters(UpsertedComments(comments, u, text)))
    ensures forall k :: 0 <= k < |UpsertedComments(comments, u, text)| &&
                        UpsertedComments(comments, u, text)[k].user == u ==>
                          UpsertedComments(comments, u, text)[k].comment == text
  {
    var r := UpsertedComments(comments, u, text);
    var users := Commenters(comments);
    if u in users {
      var i := LastIndexOf(users, u);
      assert r == comments[i := comments[i].(comment := text)];
      assert Commenters(r) == users;
      forall k | 0 <= k < |r| && r[k].user == u ensures r[k].comment == text {
        assert users[k] == users[i];
      }
    } else {
      forall a, b | 0 <= a < b < |r| ensures Commenters(r)[a] != Commenters(r)[b] {
        if b == |comments| {
          assert Commenters(r)[a] == users[a];
        }
      }
    }
  }

  // ---------------------------------------------------------------------
  // Ratings

  /** The raters, in order. */
  function Raters(ratings: seq<Rating>): (r: seq<UserId>)
    ensures |r| == |ratings|
    ensures forall i :: 0 <= i < |ratings| ==> r[i] == ratings[i].userId
  {
    seq(|ratings|, i requires 0 <= i < |ratings| => ratings[i].userId)
  }

  /** `find` gives the user's first rating, which is updated in place and
      alone; a user without a rating gets one appended. */
  function UpsertedRatings(ratings: seq<Rating>, u: UserId, value: int): (r: seq<Rating>)
    ensures |r| >= 1
    ensures u in Raters(ratings) ==> |r| == |ratings|
    ensures u !in Raters(ratings) ==> r == ratings + [Rating(u, value)]
    ensures forall k :: 0 <= k < |ratings| ==>
              r[k] == ratings[k] || (ratings[k].userId == u && r[k] == Rating(u, value))
    ensures forall k :: 0 <= k < |ratings| && r[k] != ratings[k] ==>
              k == FirstIndexOf(Raters(ratings), u)
    ensures exists k :: 0 <= k < |r| && r[k] == Rating(u, value)
  {
    var i := FirstIndexOf(Raters(ratings), u);
    if i == -1 then
      assert (ratings + [Rating(u, value)])[|ratings|] == Rating(u, value);
      ratings + [Rating(u, value)]
    else ratings[i := ratings[i].(rating := value)]
  }

  /** At most one rating per user survives every upsert, and afterwards the
      user's one rating holds the new value. */
  lemma {:induction false} UpsertKeepsOneRatingPerUser(ratings: seq<Rating>, u: UserId, value: int)
    requires NoDuplicates(Raters(ratings))
    ensures NoDuplicates(Raters(UpsertedRatings(ratings, u, value)))
    ensures forall k :: 0 <= k < |UpsertedRatings(ratings, u, value)| &&
                        UpsertedRatings(ratings, u, value)[k].userId == u ==>
                          UpsertedRatings(ratings, u, value)[k].rating == value
  {
    var r := UpsertedRatings(ratings, u, value);
    var users := Raters(ratings);
    if u in users {
      var i := FirstIndexOf(users, u);
      assert r == ratings[i := ratings[i].(rating := value)];
      assert Raters(r) == users;
      forall k | 0 <= k < |r| && r[k].userId == u ensures r[k].rating == value {
        assert users[k] == users[i];
      }
    } else {
      forall a, b | 0 <= a < b < |r| ensures Raters(r)[a] != Raters(r)[b] {
        if b == |ratings| {
          assert Raters(r)[a] == users[a];
        }
      }
    }
  }

  /** `ratings.reduce((acc, curr) => acc + curr.rating, 0)` */
  function Sum(ratings: seq<Rating>): int {
    if ratings == [] then 0 else Sum(ratings[..|ratings| - 1]) + ratings[|ratings| - 1].rating
  }

  /** `(total / n).toFixed(1)` in tenths: the multiple of a tenth nearest to
      the mean, a tie going away from zero. */
  function RoundTenths(total: int, n: int): (r: int)
    requires n > 0
    ensures total >= 0 ==> 20 * total - n < 2 * n * r <= 20 * total + n
    ensures total < 0 ==> 20 * total - n <= 2 * n * r < 20 * total + n
  {
    if total >= 0 then
      var q := (20 * total + n) / (2 * n);
      DivBounds(20 * total + n, 2 * n);
      q
    else
      var q := (n - 20 * total) / (2 * n);
      DivBounds(n - 20 * total, 2 * n);
      -q
  }

  lemma DivBounds(a: int, b: int)
    requires a >= 0 && b > 0
    ensures b * (a / b) <= a < b * (a / b) + b
  {
  }

  /** Changing one rating changes the sum by the difference. */
  lemma {:induction false} SumAfterUpdate(ratings: seq<Rating>, i: nat, value: int)
    requires i < |ratings|
    ensures Sum(ratings[i := ratings[i].(rating := value)]) == Sum(ratings) - ratings[i].rating + value
  {
    var n := |ratings| - 1;
    var updated := ratings[i := ratings[i].(rating := value)];
    if i < n {
      assert updated[..n] == ratings[..n][i := ratings[i].(rating := value)];
      SumAfterUpdate(ratings[..n], i, value);
    } else {
      assert updated[..n] == ratings[..n];
    }
  }

  /** The mean of the ratings to one decimal, in tenths: within half a
      tenth of the exact mean. */
  function MeanTenths(ratings: seq<Rating>): (r: int)
    requires |ratings| > 0
    ensures 20 * Sum(ratings) - |ratings| <= 2 * |ratings| * r <= 20 * Sum(ratings) + |ratings|
  {
    RoundTenths(Sum(ratings), |ratings|)
  }

  /** The aggregate agrees with the rating list: absent while there are no
      ratings, the rounded mean otherwise. */
  ghost predicate AggregateConsistent(p: Product) {
    p.overallRating == if p.ratings == [] then None else Some(MeanTenths(p.ratings))
  }

  /** The invariants the three upserts keep on a product. */
  ghost predicate InteractionsConsistent(p: Product) {
    && NoDuplicates(p.likes)
    && NoDuplicates(Commenters(p.comments))
    && NoDuplicates(Raters(p.ratings))
    && AggregateConsistent(p)
  }

  /** The product after `ratingOnProduct`: the upserted ratings and their
      recomputed mean. */
  function Rated(p: Product, u: UserId, value: int): (q: Product)
    ensures q.ratings == UpsertedRatings(p.ratings, u, value)
    ensures AggregateConsistent(q)
    ensures q == p.(ratings := q.ratings, overallRating := q.overallRating)
  {
    var rs := UpsertedRatings(p.ratings, u, value);
    p.(ratings := rs, overallRating := Some(MeanTenths(rs)))
  }

  /** Every upsert keeps the product's interaction invariants. */
  lemma UpsertsKeepConsistency(p: Product, u: UserId, text: string, value: int)
    requires InteractionsConsistent(p)
    ensures InteractionsConsistent(p.(likes := ToggledLikes(p.likes, u)))
    ensures InteractionsConsistent(p.(comments := UpsertedComments(p.comments, u, text)))
    ensures InteractionsConsistent(Rated(p, u, value))
  {
    ToggleKeepsLikesUnique(p.likes, u);
    UpsertKeepsOneCommentPerUser(p.comments, u, text);
    UpsertKeepsOneRatingPerUser(p.ratings, u, value);
  }

  /** Bounds on the ratings bound their sum. */
  lemma {:induction false} SumBounds(ratings: seq<Rating>, lo: int, hi: int)
    requires forall k :: 0 <= k < |ratings| ==> lo <= ratings[k].rating <= hi
    ensures lo * |ratings| <= Sum(ratings) <= hi * |ratings|
  {
    if ratings != [] {
      SumBounds(ratings[..|ratings| - 1], lo, hi);
    }
  }

  /** Cancelling a positive factor on both sides of a strict inequality. */
  lemma CancelFactor(n: int, a: int, b: int)
    requires n > 0 && n * a < n * b
    ensures a < b
  {
  }

  /** When every rating lies on the 1..5 scale the aggregate stays between
      1.0 and 5.0. */
  lemma MeanWithinScale(ratings: seq<Rating>)
    requires |ratings| > 0
    requires forall k :: 0 <= k < |ratings| ==> 1 <= ratings[k].rating <= 5
    ensures 10 <= MeanTenths(ratings) <= 50
  {
    var n, total := |ratings|, Sum(ratings);
    SumBounds(ratings, 1, 5);
    var r := MeanTenths(ratings);
    assert 2 * n * r <= 20 * total + n;
    assert 20 * total - n < 2 * n * r;
    assert 20 * total <= 100 * n;
    assert 20 * n <= 20 * total;
    CancelFactor(2 * n, r, 51);
    CancelFactor(2 * n, 9, r);
  }
}
