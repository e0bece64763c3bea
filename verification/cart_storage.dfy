/**
 * `CartStorage` (src/lib/cart-storage.ts): the cart kept in `localStorage`,
 * one JSON entry per product under the key `cart_item_<productId>`.
 */
module CartStorage {
  import opened Wrappers
  import opened JsString
  import opened JsNumber
  import opened JsValue
  import opened LocalStorage

  /** A cart line as `getAll` returns it; `image` is `None` for `null`. */
  datatype CartItem = CartItem(productId: string, title: string, price: Num, quantity: Num, image: Option<string>)

  /** The fields `getAll` copies from a parsed entry, with the defaults of `??`. */
  function Fields(v: Value, productId: string, image: Option<string>): (it: CartItem)
    ensures it.productId == productId && it.image == image
    ensures Get(v, "title").Str? ==> it.title == Get(v, "title").s
    ensures Nullish(Get(v, "title")) ==> it.title == ""
    ensures Get(v, "price").Number? ==> it.price == Get(v, "price").n
    ensures Nullish(Get(v, "price")) ==> it.price == Finite(0.0)
    ensures Get(v, "quantity").Number? ==> it.quantity == Get(v, "quantity").n
    ensures Nullish(Get(v, "quantity")) ==> it.quantity == Finite(1.0)
  {
    CartItem(
      productId,
      ToStr(Coalesce(Get(v, "title"), Str(""))),
      ToNumber(Coalesce(Get(v, "price"), Real(0.0))),
      ToNumber(Coalesce(Get(v, "quantity"), Real(1.0))),
      image)
  }

  /**
   * One stored entry as `getAll` reads it: a string `productId` wins, a
   * legacy string `$id` comes next (its image is dropped), and anything
   * else, unparseable text included, is skipped.
   */
  function ReadEntry(c: Codec, raw: string): (r: Option<CartItem>)
    ensures c.parse(raw).None? ==> r.None?
    ensures r.Some? ==> c.parse(raw).Some? && c.parse(raw).value.Object?
    ensures r.Some? && Get(c.parse(raw).value, "productId").Str? ==>
      r.value.productId == Get(c.parse(raw).value, "productId").s
    ensures r.Some? && !Get(c.parse(raw).value, "productId").Str? ==>
      && Get(c.parse(raw).value, "$id").Str?
      && r.value.productId == Get(c.parse(raw).value, "$id").s
      && r.value.image.None?
  {
    match c.parse(raw)
    case None => None
    case Some(v) =>
      var id := Get(v, "productId");
      var legacy := Get(v, "$id");
      if id.Str? then
        var image := Get(v, "image");
        Some(Fields(v, id.s, if image.Str? then Some(image.s) else None))
      else if legacy.Str? then
        Some(Fields(v, legacy.s, None))
      else
        None
  }

  /** The `getAll` loop over the enumerated keys, in enumeration order. */
  function Entries(s: Storage, keys: seq<string>, c: Codec): (items: seq<CartItem>)
    ensures |items| <= |keys|
  {
    if keys == [] then []
    else
      var k := keys[0];
      var rest := Entries(s, keys[1..], c);
      if IsCartKey(k) && Present(s, k) then
        (match ReadEntry(c, s[k])
          case Some(it) => [it] + rest
          case None => rest)
      else rest
  }

  /** `CartStorage.getAll()`: nothing without a window. */
  function GetAll(w: Option<Storage>, keys: seq<string>, c: Codec): (items: seq<CartItem>)
    ensures w.None? ==> items == []
  {
    match w
    case None => []
    case Some(s) => Entries(s, keys, c)
  }

  /** `getAll` reads only "cart_item_" keys: the rest of the storage and of the enumeration do not matter. */
  lemma {:induction false} EntriesReadOnlyCartKeys(s: Storage, keys: seq<string>, c: Codec)
    ensures Entries(s, keys, c) == Entries(CartPart(s), CartKeys(keys), c)
  {
    if keys != [] {
      EntriesReadOnlyCartKeys(s, keys[1..], c);
      assert keys == [keys[0]] + keys[1..];
    }
  }

  /** Every item `getAll` returns comes from some present cart entry. */
  lemma {:induction false} EntriesComeFromCartKeys(s: Storage, keys: seq<string>, c: Codec, it: CartItem)
    requires it in Entries(s, keys, c)
    ensures exists k :: k in keys && IsCartKey(k) && Present(s, k) && ReadEntry(c, s[k]) == Some(it)
  {
    var k := keys[0];
    if IsCartKey(k) && Present(s, k) && ReadEntry(c, s[k]) == Some(it) {
    } else {
      EntriesComeFromCartKeys(s, keys[1..], c, it);
      var k' :| k' in keys[1..] && IsCartKey(k') && Present(s, k') && ReadEntry(c, s[k']) == Some(it);
      assert k' in keys;
    }
  }

  /** The JSON object `add` stores: `JSON.stringify(item)`. */
  function ItemValue(it: CartItem): Value {
    Object(map[
      "productId" := Str(it.productId),
      "title" := Str(it.title),
      "price" := Number(it.price),
      "quantity" := Number(it.quantity),
      "image" := if it.image.Some? then Str(it.image.value) else Null])
  }

  /** `CartStorage.add(item)`: the entry is overwritten, never merged. */
  function Add(w: Option<Storage>, c: Codec, it: CartItem): (r: Option<Storage>)
    ensures w.None? <==> r.None?
    ensures r.Some? ==> r.value == w.value[CartKey(it.productId) := c.stringify(ItemValue(it))]
  {
    match w
    case None => None
    case Some(s) => Some(s[CartKey(it.productId) := c.stringify(ItemValue(it))])
  }

  /** What survives the JSON round trip: NaN and infinite numbers become null, which reads back as the default. */
  function Stored(it: CartItem): (r: CartItem)
    ensures it.price.Finite? && it.quantity.Finite? ==> r == it
  {
    it.(price := if it.price.Finite? then it.price else Finite(0.0),
        quantity := if it.quantity.Finite? then it.quantity else Finite(1.0))
  }

  /** A number as JSON keeps it: finite numbers stay, the others become null. */
  function JsonNumber(n: Num): Value {
    if n.Finite? then Number(n) else Null
  }

  /** The object `JSON.parse` gives back for a stored item, field by field. */
  lemma NormalizeItemValue(it: CartItem)
    ensures var v := Normalize(ItemValue(it));
      && v.Object?
      && Get(v, "productId") == Str(it.productId)
      && Get(v, "title") == Str(it.title)
      && Get(v, "price") == JsonNumber(it.price)
      && Get(v, "quantity") == JsonNumber(it.quantity)
      && Get(v, "image") == if it.image.Some? then Str(it.image.value) else Null
  {
    var m := ItemValue(it).props;
    var v := Normalize(ItemValue(it));
    // "title", "price" and "image" have the same length; their first letters tell them apart.
    assert "title"[0] != "price"[0] && "image"[0] != "title"[0] && "image"[0] != "price"[0];
    assert Get(v, "productId") == Str(it.productId) by { NormalizeGet(m, "productId"); }
    assert Get(v, "title") == Str(it.title) by { NormalizeGet(m, "title"); }
    assert Get(v, "price") == JsonNumber(it.price) by { NormalizeGet(m, "price"); }
    assert Get(v, "quantity") == JsonNumber(it.quantity) by { NormalizeGet(m, "quantity"); }
    assert Get(v, "image") == (if it.image.Some? then Str(it.image.value) else Null) by { NormalizeGet(m, "image"); }
  }

  /** Reading back what `add` wrote yields the item, up to the JSON treatment of non-finite numbers. */
  lemma AddRoundTrip(c: Codec, s: Storage, it: CartItem)
    requires Lawful(c)
    ensures ReadEntry(c, Add(Some(s), c, it).value[CartKey(it.productId)]) == Some(Stored(it))
  {
    var raw := Add(Some(s), c, it).value[CartKey(it.productId)];
    assert raw == c.stringify(ItemValue(it));
    NormalizeItemValue(it);
    assert c.parse(raw) == Some(Normalize(ItemValue(it)));
  }

  /** `add` then reading the same key gives back exactly the item when its numbers are finite. */
  lemma AddThenRead(c: Codec, s: Storage, it: CartItem)
    requires Lawful(c) && it.price.Finite? && it.quantity.Finite?
    ensures ReadEntry(c, Add(Some(s), c, it).value[CartKey(it.productId)]) == Some(it)
  {
    AddRoundTrip(c, s, it);
  }

  /** Adding an item that is already in the cart replaces it: the earlier quantity is forgotten. */
  lemma AddOverwrites(c: Codec, s: Storage, a: CartItem, b: CartItem)
    requires a.productId == b.productId
    ensures Add(Add(Some(s), c, a), c, b) == Add(Some(s), c, b)
  {
    var k := CartKey(a.productId);
    var x := c.stringify(ItemValue(a));
    var y := c.stringify(ItemValue(b));
    assert s[k := x][k := y] == s[k := y];
  }

  /** `parsed.quantity = quantity` in strict-mode code: null and primitives throw. */
  function AssignQuantity(v: Value, q: Num): (r: Result<Value, Thrown>)
    ensures r.Ok? <==> IsObjectLike(v)
    ensures v.Object? ==> r == Ok(Object(v.props["quantity" := Number(q)]))
    ensures v.Array? ==> r == Ok(v)
  {
    match v
    case Object(m) => Ok(Object(m["quantity" := Number(q)]))
    case Array(_) => Ok(v)    // a named property on an array is not serialised
    case _ => Err(TypeError)
  }

  /**
   * `CartStorage.update(productId, quantity)`: a missing or empty entry is
   * left alone; unparseable text throws a `SyntaxError`.
   */
  function Update(w: Option<Storage>, c: Codec, productId: string, q: Num): (r: Result<Option<Storage>, Thrown>)
    ensures w.None? ==> r == Ok(None)
    ensures w.Some? && !Present(w.value, CartKey(productId)) ==> r == Ok(w)
    ensures w.Some? && Present(w.value, CartKey(productId)) && c.parse(w.value[CartKey(productId)]).None? ==>
      r == Err(SyntaxError)
    ensures r.Ok? && r.value.Some? ==> w.Some? && r.value.value.Keys == w.value.Keys
    ensures r.Ok? && r.value.Some? ==>
      forall k :: k in w.value && k != CartKey(productId) ==> r.value.value[k] == w.value[k]
  {
    match w
    case None => Ok(None)
    case Some(s) =>
      var key := CartKey(productId);
      if !Present(s, key) then Ok(w)
      else
        match c.parse(s[key])
        case None => Err(SyntaxError)
        case Some(v) =>
          match AssignQuantity(v, q)
          case Err(e) => Err(e)
          case Ok(v') => Ok(Some(s[key := c.stringify(v')]))
  }

  /** `update` on an entry `getAll` can read changes only its quantity (up to the JSON treatment of NaN). */
  lemma UpdateChangesOnlyQuantity(c: Codec, s: Storage, productId: string, q: Num, it: CartItem)
    requires Lawful(c)
    requires Present(s, CartKey(productId)) && ReadEntry(c, s[CartKey(productId)]) == Some(it)
    ensures Update(Some(s), c, productId, q).Ok?
    ensures ReadEntry(c, Update(Some(s), c, productId, q).value.value[CartKey(productId)]) ==
      Some(it.(quantity := if q.Finite? then q else Finite(1.0)))
  {
    var key := CartKey(productId);
    var v := c.parse(s[key]).value;
    var m := v.props;
    var written := Update(Some(s), c, productId, q).value.value[key];
    assert written == c.stringify(Object(m["quantity" := Number(q)]));
    assert IsJson(v);
    NormalizeUpdate(m, "quantity", Number(q));
    var n := Object(m["quantity" := JsonNumber(q)]);
    assert c.parse(written) == Some(n);
    ReadAfterQuantityChange(v, q, it.productId, it.image);
  }

  /** Changing only the quantity property changes only the quantity `getAll` reads. */
  lemma ReadAfterQuantityChange(v: Value, q: Num, id: string, image: Option<string>)
    requires v.Object?
    ensures var n := Object(v.props["quantity" := JsonNumber(q)]);
      && Get(n, "productId") == Get(v, "productId")
      && Get(n, "$id") == Get(v, "$id")
      && Get(n, "image") == Get(v, "image")
      && Fields(n, id, image) == Fields(v, id, image).(quantity := if q.Finite? then q else Finite(1.0))
  {
  }

  /** `CartStorage.remove(productId)`: exactly that key disappears. */
  function Remove(w: Option<Storage>, productId: string): (r: Option<Storage>)
    ensures w.None? <==> r.None?
    ensures r.Some? ==> forall k :: k in r.value <==> k in w.value && k != CartKey(productId)
    ensures r.Some? ==> forall k :: k in r.value ==> r.value[k] == w.value[k]
  {
    match w
    case None => None
    case Some(s) => Some(s - {CartKey(productId)})
  }

  /** Removing a product makes `getAll` forget its entry, and only that entry. */
  lemma {:induction false} RemoveForgetsEntry(s: Storage, keys: seq<string>, c: Codec, productId: string)
    ensures Entries(Remove(Some(s), productId).value, keys, c) ==
      Entries(s, Filter(keys, CartKey(productId)), c)
  {
    if keys != [] {
      RemoveForgetsEntry(s, keys[1..], c, productId);
    }
  }

  /** `keys` without the key `k`. */
  function Filter(keys: seq<string>, k: string): (r: seq<string>)
    ensures forall x :: x in r <==> x in keys && x != k
  {
    if keys == [] then []
    else if keys[0] == k then Filter(keys[1..], k)
    else [keys[0]] + Filter(keys[1..], k)
  }

  /** `CartStorage.clear()`: every cart key goes, every other key stays. */
  function Clear(w: Option<Storage>): (r: Option<Storage>)
    ensures w.None? <==> r.None?
    ensures r.Some? ==> forall k :: k in r.value ==> !IsCartKey(k)
    ensures r.Some? ==> SameOutsideCart(w.value, r.value)
  {
    match w
    case None => None
    case Some(s) => Some(map k | k in s && !IsCartKey(k) :: s[k])
  }

  /** After `clear`, `getAll` is empty whatever the key order. */
  lemma {:induction false} ClearEmptiesCart(s: Storage, keys: seq<string>, c: Codec)
    ensures Entries(Clear(Some(s)).value, keys, c) == []
  {
    if keys != [] {
      ClearEmptiesCart(s, keys[1..], c);
    }
  }

  /** `items.reduce((sum, item) => sum + item.quantity, acc)`. */
  function CountFrom(acc: Num, items: seq<CartItem>): Num
    decreases |items|
  {
    if items == [] then acc else CountFrom(JsNumber.Add(acc, items[0].quantity), items[1..])
  }

  /** `items.reduce((sum, item) => sum + item.price * item.quantity, acc)`. */
  function TotalFrom(acc: Num, items: seq<CartItem>): Num
    decreases |items|
  {
    if items == [] then acc else TotalFrom(JsNumber.Add(acc, Mul(items[0].price, items[0].quantity)), items[1..])
  }

  /** `CartStorage.getCount()`. */
  function GetCount(w: Option<Storage>, keys: seq<string>, c: Codec): (n: Num)
    ensures w.None? ==> n == Finite(0.0)
  {
    CountFrom(Finite(0.0), GetAll(w, keys, c))
  }

  /** `CartStorage.getTotal()`. */
  function GetTotal(w: Option<Storage>, keys: seq<string>, c: Codec): (n: Num)
    ensures w.None? ==> n == Finite(0.0)
  {
    TotalFrom(Finite(0.0), GetAll(w, keys, c))
  }

  /** All quantities and prices are finite. */
  predicate AllFinite(items: seq<CartItem>) {
    forall i :: 0 <= i < |items| ==> items[i].price.Finite? && items[i].quantity.Finite?
  }

  /** Σ quantity over exact reals. */
  function QuantitySum(items: seq<CartItem>): real
    requires AllFinite(items)
  {
    if items == [] then 0.0 else items[0].quantity.r + QuantitySum(items[1..])
  }

  /** Σ price × quantity over exact reals. */
  function PriceSum(items: seq<CartItem>): real
    requires AllFinite(items)
  {
    if items == [] then 0.0 else items[0].price.r * items[0].quantity.r + PriceSum(items[1..])
  }

  /** With finite numbers, the count fold is the arithmetic sum of the quantities. */
  lemma {:induction false} CountIsSum(acc: real, items: seq<CartItem>)
    requires AllFinite(items)
    ensures CountFrom(Finite(acc), items) == Finite(acc + QuantitySum(items))
    decreases |items|
  {
    if items != [] {
      CountIsSum(acc + items[0].quantity.r, items[1..]);
    }
  }

  /** With finite numbers, the total fold is Σ price × quantity. */
  lemma {:induction false} TotalIsSum(acc: real, items: seq<CartItem>)
    requires AllFinite(items)
    ensures TotalFrom(Finite(acc), items) == Finite(acc + PriceSum(items))
    decreases |items|
  {
    if items != [] {
      var p := items[0].price.r * items[0].quantity.r;
      assert Mul(items[0].price, items[0].quantity) == Finite(p);
      TotalIsSum(acc + p, items[1..]);
      assert PriceSum(items) == p + PriceSum(items[1..]);
    }
  }

  /** One NaN quantity anywhere makes the count NaN. */
  lemma {:induction false} NaNQuantityPoisonsCount(acc: Num, items: seq<CartItem>, i: nat)
    requires i < |items| && items[i].quantity.NaN?
    ensures CountFrom(acc, items) == NaN
    decreases i
  {
    if i == 0 {
      NaNAbsorbsCount(JsNumber.Add(acc, items[0].quantity), items[1..]);
    } else {
      NaNQuantityPoisonsCount(JsNumber.Add(acc, items[0].quantity), items[1..], i - 1);
    }
  }

  lemma {:induction false} NaNAbsorbsCount(acc: Num, items: seq<CartItem>)
    requires acc.NaN?
    ensures CountFrom(acc, items) == NaN
    decreases |items|
  {
    if items != [] {
      NaNAbsorbsCount(JsNumber.Add(acc, items[0].quantity), items[1..]);
    }
  }
}
