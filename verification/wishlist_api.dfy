/**
 * The server-side wishlist: one record per saved (user, product) pair in a
 * document collection, with routes to add a product, list a user's products
 * and remove one.
 */
module WishlistApi {
  import opened Wrappers
  import opened Seqs
  import opened Http

  /** A stored wishlist document. */
  datatype Record = Record(
    userId: string,
    productCode: string,
    productName: string,
    productPrice: string,
    productImage: string)

  /**
   * The product shape both the add route receives and the list route returns:
   * a price object and a list of image objects, as string-valued dictionaries.
   */
  datatype ProductPayload = ProductPayload(
    code: string,
    name: string,
    price: map<string, string>,
    images: seq<map<string, string>>)

  const AlreadySaved := "Item already in wishlist"
  const Added := "Item added to wishlist"
  const Removed := "Item removed from wishlist"
  const NotFound := HttpError(404, "Item not found in wishlist")

  /** Python `d.get(key, '')`. */
  function GetOrEmpty(d: map<string, string>, key: string): (v: string)
    ensures key in d ==> v == d[key]
    ensures key !in d ==> v == ""
  {
    if key in d then d[key] else ""
  }

  /** The document stored for a product: its price text and the first image's address, or '' for either when missing. */
  function ToRecord(userId: string, item: ProductPayload): Record {
    Record(
      userId,
      item.code,
      item.name,
      GetOrEmpty(item.price, "formattedValue"),
      if item.images != [] then GetOrEmpty(item.images[0], "url") else "")
  }

  /** A stored document in product shape, with a one-entry price object and a single image. */
  function ToProduct(r: Record): (p: ProductPayload)
    ensures p.code == r.productCode && p.name == r.productName
    ensures "formattedValue" in p.price && p.price["formattedValue"] == r.productPrice
    ensures |p.images| == 1 && "url" in p.images[0] && p.images[0]["url"] == r.productImage
  {
    ProductPayload(r.productCode, r.productName, map["formattedValue" := r.productPrice], [map["url" := r.productImage]])
  }

  /**
   * Storing a product and listing it back keeps its code and name, its price
   * text, and its first image's address (each '' when it was missing).
   */
  lemma RoundTrip(userId: string, item: ProductPayload)
    ensures var p := ToProduct(ToRecord(userId, item));
      && p.code == item.code && p.name == item.name
      && p.price["formattedValue"] == GetOrEmpty(item.price, "formattedValue")
      && p.images[0]["url"] == (if item.images != [] then GetOrEmpty(item.images[0], "url") else "")
      && ("formattedValue" in item.price ==> p.price["formattedValue"] == item.price["formattedValue"])
      && (item.images != [] && "url" in item.images[0] ==> p.images[0]["url"] == item.images[0]["url"])
  {
  }

  predicate Matches(r: Record, userId: string, code: string) {
    r.userId == userId && r.productCode == code
  }

  /** No two documents are for the same user and product. */
  ghost predicate UniquePairs(records: seq<Record>) {
    forall i, j | 0 <= i < j < |records| ::
      !(records[i].userId == records[j].userId && records[i].productCode == records[j].productCode)
  }

  function OwnedBy(userId: string): Record -> bool {
    (r: Record) => r.userId == userId
  }

  function NotPair(userId: string, code: string): Record -> bool {
    (r: Record) => !Matches(r, userId, code)
  }

  /** What the list route answers for a user: that user's documents in product shape. */
  function UserProducts(records: seq<Record>, userId: string): (products: seq<ProductPayload>)
  {
    var mine := Filter(records, OwnedBy(userId));
    seq(|mine|, k requires 0 <= k < |mine| => ToProduct(mine[k]))
  }

  /** A user's list holds the product shape of every one of the user's documents, and nothing else. */
  lemma UserProductsMembership(records: seq<Record>, userId: string)
    ensures forall p | p in UserProducts(records, userId) ::
      exists r | r in records :: r.userId == userId && p == ToProduct(r)
    ensures forall r | r in records && r.userId == userId :: ToProduct(r) in UserProducts(records, userId)
  {
    var mine := Filter(records, OwnedBy(userId));
    var products := UserProducts(records, userId);
    forall p | p in products
      ensures exists r | r in records :: r.userId == userId && p == ToProduct(r)
    {
      var k :| 0 <= k < |products| && products[k] == p;
      var r := mine[k];
      FilterMembership(records, OwnedBy(userId), r);
      assert r in records && r.userId == userId && p == ToProduct(r);
    }
    forall r | r in records && r.userId == userId ensures ToProduct(r) in products {
      FilterMembership(records, OwnedBy(userId), r);
      var k :| 0 <= k < |mine| && mine[k] == r;
      assert products[k] == ToProduct(r);
    }
  }

  /** Adding a document for a user appends its product to that user's list and leaves other users' lists alone. */
  lemma {:induction false} UserProductsAppend(records: seq<Record>, r: Record, userId: string)
    ensures r.userId == userId ==> UserProducts(records + [r], userId) == UserProducts(records, userId) + [ToProduct(r)]
    ensures r.userId != userId ==> UserProducts(records + [r], userId) == UserProducts(records, userId)
  {
    FilterAppend(records, [r], OwnedBy(userId));
    assert Filter([r], OwnedBy(userId)) == (if r.userId == userId then [r] else []) by {
      assert [r][1..] == [];
    }
  }

  /** Under unique pairs, deleting the first match is deleting every match. */
  lemma {:induction false} RemoveFirstIsFilter(records: seq<Record>, userId: string, code: string, i: nat)
    requires UniquePairs(records)
    requires i < |records| && Matches(records[i], userId, code)
    requires forall k | 0 <= k < i :: !Matches(records[k], userId, code)
    ensures records[..i] + records[i + 1..] == Filter(records, NotPair(userId, code))
  {
    var keep := NotPair(userId, code);
    assert records == records[..i] + [records[i]] + records[i + 1..];
    FilterAppend(records[..i] + [records[i]], records[i + 1..], keep);
    FilterAppend(records[..i], [records[i]], keep);
    FilterKeepsAll(records[..i], keep);
    FilterKeepsAll(records[i + 1..], keep);
    assert Filter([records[i]], keep) == [] by {
      assert [records[i]][1..] == [];
    }
  }

  /** Deleting one document keeps the remaining pairs unique. */
  lemma DeleteKeepsUnique(records: seq<Record>, i: nat)
    requires UniquePairs(records) && i < |records|
    ensures UniquePairs(records[..i] + records[i + 1..])
  {
    var rest := records[..i] + records[i + 1..];
    forall a, b | 0 <= a < b < |rest|
      ensures !(rest[a].userId == rest[b].userId && rest[a].productCode == rest[b].productCode)
    {
      var a', b' := if a < i then a else a + 1, if b < i then b else b + 1;
      assert rest[a] == records[a'] && rest[b] == records[b'];
    }
  }

  class WishlistCollection {
    var records: seq<Record>

    ghost predicate Valid()
      reads this
    {
      UniquePairs(records)
    }

    constructor ()
      ensures Valid() && records == []
    {
      records := [];
    }

    /** `find_one` on a (user, product) pair: the position of the first matching document, if any. */
    method FindPair(userId: string, code: string) returns (found: Option<nat>)
      ensures found.Some? ==> found.value < |records| && Matches(records[found.value], userId, code)
      ensures found.Some? ==> forall k | 0 <= k < found.value :: !Matches(records[k], userId, code)
      ensures found.None? ==> forall k | 0 <= k < |records| :: !Matches(records[k], userId, code)
    {
      var i := 0;
      while i < |records|
        invariant 0 <= i <= |records|
        invariant forall k | 0 <= k < i :: !Matches(records[k], userId, code)
      {
        if Matches(records[i], userId, code) {
          return Some(i);
        }
        i := i + 1;
      }
      return None;
    }

    /**
     * Saves a product for a user. A pair already stored is left as it is;
     * otherwise exactly one document is added. Pairs stay unique.
     */
    method AddToWishlist(userId: string, item: ProductPayload) returns (message: string)
      requires Valid()
      modifies this
      ensures Valid()
      ensures (exists k | 0 <= k < |old(records)| :: Matches(old(records)[k], userId, item.code)) ==>
        records == old(records) && message == AlreadySaved
      ensures (forall k | 0 <= k < |old(records)| :: !Matches(old(records)[k], userId, item.code)) ==>
        records == old(records) + [ToRecord(userId, item)] && message == Added
    {
      var existing := FindPair(userId, item.code);
      if existing.Some? {
        return AlreadySaved;
      }
      records := records + [ToRecord(userId, item)];
      message := Added;
    }

    /** Lists a user's saved products, in storage order, converting each document to product shape. */
    method GetWishlist(userId: string) returns (products: seq<ProductPayload>)
      ensures products == UserProducts(records, userId)
      ensures forall p | p in products :: exists r | r in records :: r.userId == userId && p == ToProduct(r)
      ensures forall r | r in records && r.userId == userId :: ToProduct(r) in products
    {
      var items := Filter(records, OwnedBy(userId));
      products := [];
      var i := 0;
      while i < |items|
        invariant 0 <= i <= |items|
        invariant |products| == i
        invariant forall k | 0 <= k < i :: products[k] == ToProduct(items[k])
      {
        products := products + [ToProduct(items[i])];
        i := i + 1;
      }
      assert products == UserProducts(records, userId);
      UserProductsMembership(records, userId);
    }

    /**
     * Deletes the user's document for a product. When there is none, the
     * route fails with 404 and nothing changes; otherwise exactly that one
     * document goes and every other document stays, in order.
     */
    method RemoveFromWishlist(userId: string, code: string) returns (result: Result<string, HttpError>)
      requires Valid()
      modifies this
      ensures Valid()
      ensures (forall k | 0 <= k < |old(records)| :: !Matches(old(records)[k], userId, code)) <==> result.Err?
      ensures result.Err? ==> result.error == NotFound && records == old(records)
      ensures result.Ok? ==>
        && result.value == Removed
        && |records| == |old(records)| - 1
        && records == Filter(old(records), NotPair(userId, code))
    {
      var found := FindPair(userId, code);
      if found.None? {
        return Err(NotFound);
      }
      var i := found.value;
      RemoveFirstIsFilter(records, userId, code, i);
      DeleteKeepsUnique(records, i);
      records := records[..i] + records[i + 1..];
      result := Ok(Removed);
    }
  }

  /** After a product is added for a user, that user's list ends with it; other users' lists are unchanged. */
  lemma AddThenList(records: seq<Record>, userId: string, other: string, item: ProductPayload)
    requires other != userId
    ensures var after := records + [ToRecord(userId, item)];
      && UserProducts(after, userId) == UserProducts(records, userId) + [ToProduct(ToRecord(userId, item))]
      && UserProducts(after, other) == UserProducts(records, other)
  {
    UserProductsAppend(records, ToRecord(userId, item), userId);
    UserProductsAppend(records, ToRecord(userId, item), other);
  }

  /** Removal keeps every document of another pair, each as often as before. */
  lemma RemovalKeepsOthers(records: seq<Record>, userId: string, code: string, r: Record)
    ensures !Matches(r, userId, code) ==>
      multiset(Filter(records, NotPair(userId, code)))[r] == multiset(records)[r]
    ensures Matches(r, userId, code) ==> r !in Filter(records, NotPair(userId, code))
  {
    FilterCount(records, NotPair(userId, code), r);
    FilterMembership(records, NotPair(userId, code), r);
  }
}
