/**
 * The storage side of the product card (src/components/product/ProductCard.tsx):
 * "add to cart" increments the stored quantity, and opening a product leaves
 * a "seen" marker.
 */
module ProductCard {
  import opened Wrappers
  import opened JsNumber
  import opened JsValue
  import opened LocalStorage
  import CartStorage

  /** The product document fields the card copies; optional ones may be absent or null. */
  datatype Product = Product(id: string, title: string, price: Num, description: Value, imageFileIds: Value)

  /** The quantity `handleAddToCart` writes: one more than a stored numeric quantity, else 1. */
  function NextQuantity(s: Storage, c: Codec, id: string): (q: Num)
    ensures !Present(s, CartKey(id)) ==> q == Finite(1.0)
    ensures Present(s, CartKey(id)) && c.parse(s[CartKey(id)]).None? ==> q == Finite(1.0)
    ensures Present(s, CartKey(id)) && c.parse(s[CartKey(id)]).Some? ==>
      var v := Get(c.parse(s[CartKey(id)]).value, "quantity");
      q == if v.Number? then Add(v.n, Finite(1.0)) else Finite(1.0)
  {
    var key := CartKey(id);
    if !Present(s, key) then Finite(1.0)
    else
      match c.parse(s[key])
      case None => Finite(1.0)
      case Some(existing) =>
        var v := Get(existing, "quantity");
        if v.Number? then Add(v.n, Finite(1.0)) else Finite(1.0)
  }

  /** The record the card stores; unset optional fields are dropped by `JSON.stringify`. */
  function Record(p: Product, q: Num): Value {
    Object(map[
      "productId" := Str(p.id),
      "title" := Str(p.title),
      "description" := p.description,
      "price" := Number(p.price),
      "quantity" := Number(q),
      "imageFileIds" := p.imageFileIds])
  }

  /** `handleAddToCart`: only the product's cart key is written. */
  function HandleAddToCart(s: Storage, c: Codec, p: Product): (r: Storage)
    ensures r.Keys == s.Keys + {CartKey(p.id)}
    ensures forall k :: k in s && k != CartKey(p.id) ==> r[k] == s[k]
  {
    s[CartKey(p.id) := c.stringify(Record(p, NextQuantity(s, c, p.id)))]
  }

  /** The card's record in normal form, field by field: a non-finite quantity becomes null, and there is no `image`. */
  lemma RecordNormalized(p: Product, q: Num)
    requires p.price.Finite?
    ensures var v := Normalize(Record(p, q));
      && v.Object?
      && Get(v, "productId") == Str(p.id)
      && Get(v, "title") == Str(p.title)
      && Get(v, "price") == Number(p.price)
      && Get(v, "quantity") == (if q.Finite? then Number(q) else Null)
      && Get(v, "image") == Undefined
      && (p.description != Undefined ==> Get(v, "description") == Normalize(p.description))
      && (p.description == Undefined ==> Get(v, "description") == Undefined)
      && (p.imageFileIds != Undefined ==> Get(v, "imageFileIds") == Normalize(p.imageFileIds))
      && (p.imageFileIds == Undefined ==> Get(v, "imageFileIds") == Undefined)
  {
    var m := Record(p, q).props;
    // "title", "price" and "image" have the same length; their first letters tell them apart.
    assert "title"[0] != "price"[0] && "image"[0] != "title"[0] && "image"[0] != "price"[0];
    NormalizeGet(m, "productId");
    NormalizeGet(m, "title");
    NormalizeGet(m, "price");
    NormalizeGet(m, "quantity");
    NormalizeGet(m, "image");
    NormalizeGet(m, "description");
    NormalizeGet(m, "imageFileIds");
  }

  /** The card's record after the JSON round trip is its normal form. */
  lemma RecordParsesBack(c: Codec, p: Product, q: Num)
    requires Lawful(c) && p.price.Finite?
    ensures var v := c.parse(c.stringify(Record(p, q)));
      && v.Some? && v.value.Object?
      && Get(v.value, "productId") == Str(p.id)
      && Get(v.value, "title") == Str(p.title)
      && Get(v.value, "price") == Number(p.price)
      && Get(v.value, "quantity") == (if q.Finite? then Number(q) else Null)
      && Get(v.value, "image") == Undefined
      && (p.description != Undefined ==> Get(v.value, "description") == Normalize(p.description))
      && (p.description == Undefined ==> Get(v.value, "description") == Undefined)
      && (p.imageFileIds != Undefined ==> Get(v.value, "imageFileIds") == Normalize(p.imageFileIds))
      && (p.imageFileIds == Undefined ==> Get(v.value, "imageFileIds") == Undefined)
  {
    RecordNormalized(p, q);
    assert c.parse(c.stringify(Record(p, q))) == Some(Normalize(Record(p, q)));
  }

  /** What `CartStorage.getAll` reads back from the card's record. */
  lemma ReadBack(c: Codec, s: Storage, p: Product)
    requires Lawful(c) && p.price.Finite?
    ensures var q := NextQuantity(s, c, p.id);
      CartStorage.ReadEntry(c, HandleAddToCart(s, c, p)[CartKey(p.id)]) ==
        Some(CartStorage.CartItem(p.id, p.title, p.price, if q.Finite? then q else Finite(1.0), None))
  {
    var q := NextQuantity(s, c, p.id);
    var raw := HandleAddToCart(s, c, p)[CartKey(p.id)];
    assert raw == c.stringify(Record(p, q));
    RecordParsesBack(c, p, q);
  }

  /** A second click on a fresh product leaves quantity 2: the card increments, unlike `CartStorage.add`. */
  lemma TwoClicksGiveTwo(c: Codec, s: Storage, p: Product)
    requires Lawful(c) && p.price.Finite?
    requires CartKey(p.id) !in s
    ensures var s2 := HandleAddToCart(HandleAddToCart(s, c, p), c, p);
      CartStorage.ReadEntry(c, s2[CartKey(p.id)]).Some? &&
      CartStorage.ReadEntry(c, s2[CartKey(p.id)]).value.quantity == Finite(2.0)
  {
    var s1 := HandleAddToCart(s, c, p);
    var key := CartKey(p.id);
    assert NextQuantity(s, c, p.id) == Finite(1.0);
    var m := Record(p, Finite(1.0)).props;
    NormalizeProperty(m, "quantity");
    StringifiedNonEmpty(c, Record(p, Finite(1.0)));
    assert c.parse(s1[key]).Some?;
    assert Get(c.parse(s1[key]).value, "quantity") == Real(1.0);
    assert NextQuantity(s1, c, p.id) == Finite(2.0);
    ReadBack(c, s1, p);
  }

  /** `markAsSeen` at time `now` (milliseconds since the epoch). */
  function MarkAsSeen(s: Storage, id: string, now: nat): (r: Storage)
    ensures CartPart(r) == CartPart(s)
    ensures SeenKey(id) in r && r[SeenKey(id)] == NatToString(now)
  {
    s[SeenKey(id) := NatToString(now)]
  }

  /** The cart `getAll` sees is the same before and after `markAsSeen`, whatever the key order. */
  lemma MarkAsSeenKeepsCart(s: Storage, id: string, now: nat, keys: seq<string>, c: Codec)
    ensures CartStorage.Entries(MarkAsSeen(s, id, now), keys, c) ==
      CartStorage.Entries(CartPart(s), CartKeys(keys), c)
  {
    CartStorage.EntriesReadOnlyCartKeys(MarkAsSeen(s, id, now), keys, c);
  }
}
