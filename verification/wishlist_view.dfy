/**
 * The wishlist page: it loads the saved products either from the back end
 * (signed-in users) or from the browser's local storage (guests), and removes
 * a product by code from whichever of the two holds the list.
 */
module WishlistView {
  import opened Wrappers
  import opened Seqs
  import opened Products

  /** What the authenticated `GET /wishlist` call gave: it threw, or answered with an `items` field that may be missing. */
  datatype Fetch = Threw | Responded(items: Option<seq<Product>>)

  /** A stored token counts only when it is present and non-empty, as a JavaScript truthiness test sees it. */
  predicate SignedIn(token: Option<string>) {
    token.Some? && token.value != ""
  }

  /** The filter condition of a removal: the product carries another code. */
  function OtherThan(code: string): Product -> bool {
    (p: Product) => p.code != code
  }

  /** The list without the products carrying `code`. */
  function WithoutCode(items: seq<Product>, code: string): (r: seq<Product>)
    ensures |r| <= |items|
    ensures forall k | 0 <= k < |r| :: r[k].code != code
  {
    Filter(items, OtherThan(code))
  }

  /** A product survives removal exactly when it was listed and carries another code. */
  lemma WithoutCodeMembership(items: seq<Product>, code: string, p: Product)
    ensures p in WithoutCode(items, code) <==> p in items && p.code != code
  {
    FilterMembership(items, OtherThan(code), p);
  }

  /** Removal keeps the other products in their order, each as often as before. */
  lemma WithoutCodeKeepsOthers(items: seq<Product>, code: string, p: Product)
    ensures IsSubsequence(WithoutCode(items, code), items)
    ensures p.code != code ==> multiset(WithoutCode(items, code))[p] == multiset(items)[p]
    ensures p.code == code ==> multiset(WithoutCode(items, code))[p] == 0
  {
    FilterIsSubsequence(items, OtherThan(code));
    FilterCount(items, OtherThan(code), p);
  }

  /** Removing a code that no listed product carries changes nothing. */
  lemma WithoutAbsentCode(items: seq<Product>, code: string)
    requires forall k | 0 <= k < |items| :: items[k].code != code
    ensures WithoutCode(items, code) == items
  {
    FilterKeepsAll(items, OtherThan(code));
  }

  /** Removing the same code twice is removing it once. */
  lemma WithoutCodeIdempotent(items: seq<Product>, code: string)
    ensures WithoutCode(WithoutCode(items, code), code) == WithoutCode(items, code)
  {
    WithoutAbsentCode(WithoutCode(items, code), code);
  }

  /**
   * The guest list held in local storage: no entry, or an empty one, reads as
   * the empty list; otherwise the entry is decoded, and None means the decoding
   * threw.
   */
  function GuestList(stored: Option<string>, decode: string -> Option<seq<Product>>): (r: Option<seq<Product>>)
    ensures (stored.None? || stored.value == "") ==> r == Some([])
    ensures stored.Some? && stored.value != "" ==> r == decode(stored.value)
  {
    if stored.Some? && stored.value != "" then decode(stored.value) else Some([])
  }

  /**
   * When the encoding of a list decodes back to that list, a guest removal
   * written to local storage is what the next load reads.
   */
  lemma GuestRemovalPersists(items: seq<Product>, code: string,
                             encode: seq<Product> -> string, decode: string -> Option<seq<Product>>)
    requires decode(encode(WithoutCode(items, code))) == Some(WithoutCode(items, code))
    requires encode(WithoutCode(items, code)) != ""
    ensures GuestList(Some(encode(WithoutCode(items, code))), decode) == Some(WithoutCode(items, code))
  {
  }

  class WishlistPage {
    var items: seq<Product>
    var loading: bool
    /** The `token` entry of local storage. */
    var token: Option<string>
    /** The `wishlist` entry of local storage. */
    var stored: Option<string>

    /** The page starts empty and loading, over the given local storage. */
    constructor (token: Option<string>, stored: Option<string>)
      ensures items == [] && loading
      ensures this.token == token && this.stored == stored
    {
      items := [];
      loading := true;
      this.token := token;
      this.stored := stored;
    }

    /**
     * Loads the list. Signed in, the back end's `items` are shown, the empty
     * list when the field is missing, and nothing changes when the call throws.
     * As a guest, the stored list is shown unless decoding it throws. Loading
     * ends in every case.
     */
    method LoadWishlist(response: Fetch, decode: string -> Option<seq<Product>>)
      modifies this`items, this`loading
      ensures !loading
      ensures SignedIn(token) && response.Responded? ==> items == response.items.GetOr([])
      ensures SignedIn(token) && response.Threw? ==> items == old(items)
      ensures !SignedIn(token) && GuestList(stored, decode).Some? ==> items == GuestList(stored, decode).value
      ensures !SignedIn(token) && GuestList(stored, decode).None? ==> items == old(items)
    {
      if SignedIn(token) {
        match response {
          case Responded(found) => items := found.GetOr([]);
          case Threw =>
        }
      } else {
        var guest := GuestList(stored, decode);
        if guest.Some? {
          items := guest.value;
        }
      }
      loading := false;
    }

    /**
     * Removes every product carrying `code`. Signed in, the list shrinks only
     * once the back end's delete has succeeded, and local storage is untouched.
     * As a guest, the shrunk list is written to local storage and shown.
     */
    method RemoveItem(code: string, deleteOk: bool, encode: seq<Product> -> string)
      modifies this`items, this`stored
      ensures SignedIn(token) ==> stored == old(stored)
      ensures SignedIn(token) && deleteOk ==> items == WithoutCode(old(items), code)
      ensures SignedIn(token) && !deleteOk ==> items == old(items)
      ensures !SignedIn(token) ==> items == WithoutCode(old(items), code)
      ensures !SignedIn(token) ==> stored == Some(encode(items))
    {
      if SignedIn(token) {
        if deleteOk {
          items := WithoutCode(items, code);
        }
      } else {
        var updated := WithoutCode(items, code);
        stored := Some(encode(updated));
        items := WithoutCode(items, code);
      }
    }
  }
}
