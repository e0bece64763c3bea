/**
 * The browser's `localStorage` as the storefront uses it: a map from keys to
 * strings. The order in which the browser enumerates keys (`localStorage.key(i)`,
 * `Object.keys(localStorage)`) is unspecified, so every reader takes that
 * order as a parameter; `Enumerates` says when such a sequence lists exactly
 * the stored keys. A missing `window` (server rendering) is a `None` storage.
 */
module LocalStorage {
  import opened JsString
  import opened JsNumber

  type Storage = map<string, string>

  /** The prefix of every cart entry's key. */
  const CartPrefix: string := "cart_item_"

  /** The prefix of the "already seen" markers written by the product card. */
  const SeenPrefix: string := "seen_product_"

  /** `cart_item_${productId}`. */
  function CartKey(productId: string): (k: string)
    ensures StartsWith(k, CartPrefix) && k[|CartPrefix|..] == productId
  {
    CartPrefix + productId
  }

  /** `key.startsWith("cart_item_")`. */
  predicate IsCartKey(k: string) {
    StartsWith(k, CartPrefix)
  }

  /** `seen_product_${productId}`. */
  function SeenKey(productId: string): (k: string)
    ensures !IsCartKey(k)
  {
    assert (SeenPrefix + productId)[0] == 's';
    SeenPrefix + productId
  }

  /** Distinct products have distinct cart keys, and every cart key belongs to one product. */
  lemma CartKeyInjective(a: string, b: string)
    ensures CartKey(a) == CartKey(b) <==> a == b
  {
    if CartKey(a) == CartKey(b) {
      assert a == CartKey(a)[|CartPrefix|..];
    }
  }

  /** `localStorage.getItem(k)` is truthy: the key is present with a non-empty value. */
  predicate Present(s: Storage, k: string) {
    k in s && s[k] != ""
  }

  /** `keys` lists every stored key exactly once. */
  predicate Enumerates(keys: seq<string>, s: Storage) {
    && (forall i :: 0 <= i < |keys| ==> keys[i] in s)
    && (forall k :: k in s ==> k in keys)
    && (forall i, j :: 0 <= i < j < |keys| ==> keys[i] != keys[j])
  }

  /** `keys.filter(k => k.startsWith("cart_item_"))`. */
  function CartKeys(keys: seq<string>): (r: seq<string>)
    ensures forall k :: k in r <==> k in keys && IsCartKey(k)
    ensures |r| <= |keys|
  {
    if keys == [] then []
    else if IsCartKey(keys[0]) then [keys[0]] + CartKeys(keys[1..])
    else CartKeys(keys[1..])
  }

  /** The cart part of a storage. */
  function CartPart(s: Storage): (r: Storage)
    ensures forall k :: k in r <==> k in s && IsCartKey(k)
    ensures forall k :: k in r ==> r[k] == s[k]
  {
    map k | k in s && IsCartKey(k) :: s[k]
  }

  /** Two storages agree everywhere except on cart keys. */
  predicate SameOutsideCart(s: Storage, t: Storage) {
    && (forall k :: k in s && !IsCartKey(k) ==> k in t && t[k] == s[k])
    && (forall k :: k in t && !IsCartKey(k) ==> k in s)
  }
}
