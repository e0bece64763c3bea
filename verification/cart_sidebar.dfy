/**
 * The cart sidebar (src/components/CartSidebar.tsx): it loads its lines
 * straight from the "cart_item_" entries, totals them, and writes each
 * quantity change back to storage.
 */
module CartSidebar {
  import opened Wrappers
  import opened JsNumber
  import opened JsValue
  import opened LocalStorage
  import opened AppwriteUrls

  /** `FREE_SHIPPING_THRESHOLD`. */
  const FreeShippingThreshold: real := 120.0

  /** A sidebar line; the fields hold whatever the stored JSON held. `image` is a view URL. */
  datatype Line = Line(id: Value, name: Value, price: Value, quantity: Value, image: Option<string>)

  /** One parsed entry as the load effect maps it; reading a property of null throws. */
  function LoadEntry(env: Env, v: Value): (r: Result<Line, Thrown>)
    ensures v.Null? ==> r == Err(TypeError)
    ensures r.Ok? ==>
      && r.value.id == Get(v, "productId") && r.value.name == Get(v, "title")
      && r.value.price == Get(v, "price") && r.value.quantity == Get(v, "quantity")
    ensures r.Ok? && !Truthy(Get(Get(v, "imageFileIds"), "0")) ==> r.value.image.None?
  {
    if v.Null? then Err(TypeError)
    else
      var first := Get(Get(v, "imageFileIds"), "0");
      var image: Result<Option<string>, Thrown> :=
        if Truthy(first) then
          (match ClientImageUrl(env, ToStr(first))
            case Ok(u) => Ok(Some(u))
            case Err(e) => Err(e))
        else Ok(None);
      match image
      case Err(e) => Err(e)
      case Ok(img) => Ok(Line(Get(v, "productId"), Get(v, "title"), Get(v, "price"), Get(v, "quantity"), img))
  }

  /** The load loop: `JSON.parse` is not guarded, so the first bad entry aborts the whole load. */
  function LoadLines(s: Storage, c: Codec, env: Env, keys: seq<string>): (r: Result<seq<Line>, Thrown>)
    ensures r.Ok? ==> |r.value| <= |keys|
  {
    if keys == [] then Ok([])
    else
      var k := keys[0];
      if !IsCartKey(k) || !Present(s, k) then LoadLines(s, c, env, keys[1..])
      else
        match c.parse(s[k])
        case None => Err(SyntaxError)
        case Some(v) =>
          match LoadEntry(env, v)
          case Err(e) => Err(e)
          case Ok(line) =>
            match LoadLines(s, c, env, keys[1..])
            case Err(e) => Err(e)
            case Ok(rest) => Ok([line] + rest)
  }

  /** The loading effect: nothing happens while the sidebar is closed. */
  function Load(isOpen: bool, current: seq<Line>, s: Storage, c: Codec, env: Env, keys: seq<string>): (r: Result<seq<Line>, Thrown>)
    ensures !isOpen ==> r == Ok(current)
  {
    if !isOpen then Ok(current) else LoadLines(s, c, env, keys)
  }

  /** Loading ignores every key but the "cart_item_" ones. */
  lemma {:induction false} LoadReadsOnlyCartKeys(s: Storage, c: Codec, env: Env, keys: seq<string>)
    ensures LoadLines(s, c, env, keys) == LoadLines(CartPart(s), c, env, CartKeys(keys))
  {
    if keys != [] {
      LoadReadsOnlyCartKeys(s, c, env, keys[1..]);
    }
  }

  /** A garbled cart entry makes the whole load throw: no line is shown. */
  lemma GarbledEntryAbortsLoad(s: Storage, c: Codec, env: Env, k: string)
    requires IsCartKey(k) && Present(s, k) && c.parse(s[k]).None?
    ensures LoadLines(s, c, env, [k]) == Err(SyntaxError)
  {
  }

  /** `items.reduce((sum, item) => sum + item.price * item.quantity, acc)`. */
  function SubtotalFrom(acc: Num, items: seq<Line>): Num
    decreases |items|
  {
    if items == [] then acc
    else SubtotalFrom(Add(acc, Times(items[0].price, items[0].quantity)), items[1..])
  }

  function Subtotal(items: seq<Line>): (r: Num)
    ensures NumericLines(items) ==> r == Finite(LineSum(items))
  {
    if NumericLines(items) then
      SubtotalIsSum(0.0, items);
      SubtotalFrom(Finite(0.0), items)
    else
      SubtotalFrom(Finite(0.0), items)
  }

  /** Every line's price and quantity are finite numbers. */
  predicate NumericLines(items: seq<Line>) {
    forall i :: 0 <= i < |items| ==>
      (items[i].price.Number? && items[i].price.n.Finite? && items[i].quantity.Number? && items[i].quantity.n.Finite?)
  }

  /** Σ price × quantity over exact reals. */
  function LineSum(items: seq<Line>): real
    requires NumericLines(items)
  {
    if items == [] then 0.0
    else items[0].price.n.r * items[0].quantity.n.r + LineSum(items[1..])
  }

  /** With numeric lines the subtotal is Σ price × quantity. */
  lemma {:induction false} SubtotalIsSum(acc: real, items: seq<Line>)
    requires NumericLines(items)
    ensures SubtotalFrom(Finite(acc), items) == Finite(acc + LineSum(items))
    decreases |items|
  {
    if items != [] {
      var p := items[0].price.n.r * items[0].quantity.n.r;
      assert Times(items[0].price, items[0].quantity) == Finite(p);
      SubtotalIsSum(acc + p, items[1..]);
      assert LineSum(items) == p + LineSum(items[1..]);
    }
  }

  /** `subtotal + shipping + tax`. */
  function Total(subtotal: Num, shipping: Num, tax: Num): (t: Num)
    ensures subtotal.Finite? && shipping.Finite? && tax.Finite? ==>
      t == Finite(subtotal.r + shipping.r + tax.r)
  {
    Add(Add(subtotal, shipping), tax)
  }

  /** `Math.max(0, FREE_SHIPPING_THRESHOLD - subtotal)`. */
  function RemainingForFree(subtotal: Num): (r: Num)
    ensures subtotal.NaN? <==> r.NaN?
    ensures !subtotal.NaN? ==> !Less(r, Finite(0.0))
    ensures !subtotal.NaN? ==> (r == Finite(0.0) <==> !Less(subtotal, Finite(FreeShippingThreshold)))
    ensures subtotal.Finite? && subtotal.r < FreeShippingThreshold ==>
      r == Finite(FreeShippingThreshold - subtotal.r)
  {
    Max(Finite(0.0), Sub(Finite(FreeShippingThreshold), subtotal))
  }

  /** `Math.min(100, (subtotal / FREE_SHIPPING_THRESHOLD) * 100)`. */
  function Progress(subtotal: Num): (r: Num)
    ensures subtotal.NaN? <==> r.NaN?
    ensures !r.NaN? ==> !Less(Finite(100.0), r)
    ensures !subtotal.NaN? && !Less(subtotal, Finite(FreeShippingThreshold)) ==> r == Finite(100.0)
    ensures subtotal.Finite? && subtotal.r < FreeShippingThreshold ==>
      r == Finite(subtotal.r / FreeShippingThreshold * 100.0)
  {
    Min(Finite(100.0), Mul(Div(subtotal, Finite(FreeShippingThreshold)), Finite(100.0)))
  }

  /** The bar is full exactly when nothing remains before free shipping. */
  lemma ProgressFullIffNothingRemains(subtotal: Num)
    requires subtotal.Finite?
    ensures Progress(subtotal) == Finite(100.0) <==> RemainingForFree(subtotal) == Finite(0.0)
  {
  }

  /** What the shipping row shows. */
  datatype ShippingLabel = Free | Amount(shipping: Num)

  /** `shipping === 0 ? "Free" : formatMoney(shipping)`. */
  function ShippingRow(shipping: Num): (l: ShippingLabel)
    ensures l == Free <==> shipping == Finite(0.0)
    ensures l.Amount? ==> l.shipping == shipping
  {
    if shipping == Finite(0.0) then Free else Amount(shipping)
  }

  /**
   * `items.filter(item => item.id !== id)`. The id is whatever the clicked
   * line loaded as its `productId`: a string, but also undefined, a number
   * or any other JSON value.
   */
  function Kept(items: seq<Line>, id: Value): (r: seq<Line>)
    ensures forall l :: l in r <==> l in items && !StrictEquals(l.id, id)
    ensures |r| <= |items|
  {
    if items == [] then []
    else if !StrictEquals(items[0].id, id) then [items[0]] + Kept(items[1..], id)
    else Kept(items[1..], id)
  }

  /** Filtering keeps the order of what it keeps: it distributes over concatenation. */
  lemma {:induction false} KeptDistributes(a: seq<Line>, b: seq<Line>, id: Value)
    ensures Kept(a + b, id) == Kept(a, id) + Kept(b, id)
  {
    if a != [] {
      KeptDistributes(a[1..], b, id);
      assert (a + b)[0] == a[0];
      assert (a + b)[1..] == a[1..] + b;
    } else {
      assert a + b == b;
    }
  }

  /** Lines without the id come through untouched. */
  lemma {:induction false} KeptIdentity(items: seq<Line>, id: Value)
    requires forall i :: 0 <= i < |items| ==> !StrictEquals(items[i].id, id)
    ensures Kept(items, id) == items
  {
    if items != [] {
      KeptIdentity(items[1..], id);
    }
  }

  /** `onRemove(id)`: the lines without that id, and the storage without the key `cart_item_${id}`. */
  function OnRemove(items: seq<Line>, s: Storage, id: Value): (r: (seq<Line>, Storage))
    ensures r.0 == Kept(items, id)
    ensures forall k :: k in r.1 <==> k in s && k != CartKey(ToStr(id))
    ensures forall k :: k in r.1 ==> r.1[k] == s[k]
  {
    (Kept(items, id), s - {CartKey(ToStr(id))})
  }

  /**
   * A line loaded without a `productId` has id undefined: removing it drops
   * every such line but deletes the key "cart_item_undefined", so the entry
   * it came from stays stored.
   */
  lemma UndefinedIdKeepsEntry(items: seq<Line>, s: Storage, k: string)
    requires k in s && k != CartKey("undefined")
    ensures forall l :: l in OnRemove(items, s, Undefined).0 ==> l.id != Undefined
    ensures k in OnRemove(items, s, Undefined).1 && OnRemove(items, s, Undefined).1[k] == s[k]
  {
  }

  /** A NaN id equals nothing, so removing it keeps every line. */
  lemma NaNIdRemovesNoLine(items: seq<Line>, s: Storage)
    ensures OnRemove(items, s, Number(NaN)).0 == items
  {
    KeptIdentity(items, Number(NaN));
  }

  /** The JSON `onIncDec` writes for a line. */
  function Record(l: Line): Value {
    Object(map[
      "productId" := l.id,
      "title" := l.name,
      "price" := l.price,
      "quantity" := l.quantity,
      "imageFileIds" := if l.image.Some? && l.image.value != "" then Array([Str(l.image.value)]) else Array([])])
  }

  /** The line after `onIncDec`: `item.quantity + delta`, with no lower bound. */
  function Bumped(l: Line, delta: Num): (r: Line)
    ensures r.id == l.id && r.name == l.name && r.price == l.price && r.image == l.image
    ensures l.quantity.Number? ==> r.quantity == Number(Add(l.quantity.n, delta))
    ensures l.quantity.Str? ==> r.quantity == Str(l.quantity.s + NumberToString(delta))
  {
    l.(quantity := Plus(l.quantity, Number(delta)))
  }

  /** `onIncDec(id, delta)`: each matching line is bumped and written back under `cart_item_${id}`, in order. */
  function OnIncDec(items: seq<Line>, s: Storage, c: Codec, id: Value, delta: Num): (r: (seq<Line>, Storage))
    ensures |r.0| == |items|
    ensures forall i :: 0 <= i < |items| ==>
      r.0[i] == if StrictEquals(items[i].id, id) then Bumped(items[i], delta) else items[i]
    ensures forall k :: k != CartKey(ToStr(id)) ==> (k in r.1 <==> k in s)
    ensures forall k :: k in s && k != CartKey(ToStr(id)) ==> r.1[k] == s[k]
    ensures (forall i :: 0 <= i < |items| ==> !StrictEquals(items[i].id, id)) ==> r.1 == s
  {
    if items == [] then ([], s)
    else
      var l := items[0];
      var hit := StrictEquals(l.id, id);
      var l' := if hit then Bumped(l, delta) else l;
      var s' := if hit then s[CartKey(ToStr(id)) := c.stringify(Record(l'))] else s;
      var rest := OnIncDec(items[1..], s', c, id, delta);
      ([l'] + rest.0, rest.1)
  }

  /**
   * The key `cart_item_${id}` ends up holding the record of the last matching
   * line, bumped: each match overwrites the one before.
   */
  lemma {:induction false} OnIncDecWritesLast(items: seq<Line>, s: Storage, c: Codec, id: Value, delta: Num, j: int)
    requires 0 <= j < |items| && StrictEquals(items[j].id, id)
    requires forall i :: j < i < |items| ==> !StrictEquals(items[i].id, id)
    ensures CartKey(ToStr(id)) in OnIncDec(items, s, c, id, delta).1
    ensures OnIncDec(items, s, c, id, delta).1[CartKey(ToStr(id))] == c.stringify(Record(Bumped(items[j], delta)))
  {
    var l := items[0];
    var hit := StrictEquals(l.id, id);
    var l' := if hit then Bumped(l, delta) else l;
    var s' := if hit then s[CartKey(ToStr(id)) := c.stringify(Record(l'))] else s;
    assert OnIncDec(items, s, c, id, delta).1 == OnIncDec(items[1..], s', c, id, delta).1;
    if j == 0 {
      assert forall i :: 0 <= i < |items[1..]| ==> !StrictEquals(items[1..][i].id, id) by {
        forall i | 0 <= i < |items[1..]|
          ensures !StrictEquals(items[1..][i].id, id)
        {
          assert items[1..][i] == items[i + 1];
        }
      }
    } else {
      OnIncDecWritesLast(items[1..], s', c, id, delta, j - 1);
    }
  }

  /** Adding a finite number to a JSON value gives a JSON value: a string, or a finite number. */
  lemma BumpedIsJson(l: Line, delta: Num)
    requires IsJson(l.quantity) && delta.Finite?
    ensures IsJson(Bumped(l, delta).quantity)
  {
    var q := l.quantity;
    if !IsObjectLike(q) && !q.Str? {
      assert ToNumber(q).Finite?;
    }
  }

  /** Decrementing a line with quantity 1 leaves it in the cart with quantity 0. */
  lemma NoLowerBound(l: Line)
    requires l.quantity == Real(1.0)
    ensures Bumped(l, Finite(-1.0)) == l.(quantity := Real(0.0))
  {
  }

  /**
   * Writing a line back and reloading it returns its id, name, price and
   * quantity, but not its image: the stored view URL is treated as a file
   * id, so a configured backend wraps it in a second URL, and a missing
   * configuration makes the reload throw.
   */
  lemma RoundTrip(c: Codec, env: Env, l: Line)
    requires Lawful(c)
    requires IsJson(l.id) && IsJson(l.name) && IsJson(l.price) && IsJson(l.quantity)
    ensures var r := LoadEntry(env, c.parse(c.stringify(Record(l))).value);
      && (l.image.None? ==> r == Ok(l))
      && (l.image.Some? && l.image.value != "" ==> (r.Ok? <==> ClientImageUrl(env, l.image.value).Ok?))
      && (r.Ok? ==> r.value.(image := l.image) == l)
      && (r.Ok? && l.image.Some? && l.image.value != "" ==> r.value.image != l.image)
  {
    RecordIsJson(l);
    NormalizeJson(Record(l));
    assert c.parse(c.stringify(Record(l))) == Some(Record(l));
    Reload(env, l);
  }

  /**
   * What `onIncDec` writes reloads as the bumped line: the last matching line
   * comes back with its id, name, price and new quantity.
   */
  lemma OnIncDecReloads(c: Codec, env: Env, items: seq<Line>, s: Storage, id: Value, delta: Num, j: int)
    requires Lawful(c) && delta.Finite?
    requires 0 <= j < |items| && StrictEquals(items[j].id, id)
    requires forall i :: j < i < |items| ==> !StrictEquals(items[i].id, id)
    requires IsJson(items[j].id) && IsJson(items[j].name) && IsJson(items[j].price) && IsJson(items[j].quantity)
    ensures var r := OnIncDec(items, s, c, id, delta);
      && CartKey(ToStr(id)) in r.1
      && c.parse(r.1[CartKey(ToStr(id))]).Some?
      && var back := LoadEntry(env, c.parse(r.1[CartKey(ToStr(id))]).value);
      && (r.0[j].image.None? ==> back == Ok(r.0[j]))
      && (back.Ok? ==> back.value.(image := r.0[j].image) == r.0[j])
  {
    var l := Bumped(items[j], delta);
    OnIncDecWritesLast(items, s, c, id, delta, j);
    BumpedIsJson(items[j], delta);
    RoundTrip(c, env, l);
    RecordIsJson(l);
    NormalizeJson(Record(l));
  }

  lemma RecordIsJson(l: Line)
    requires IsJson(l.id) && IsJson(l.name) && IsJson(l.price) && IsJson(l.quantity)
    ensures IsJson(Record(l))
  {
    var m := Record(l).props;
    assert IsJson(m["imageFileIds"]);
  }

  /** Loading the record of a line directly. */
  lemma Reload(env: Env, l: Line)
    ensures var r := LoadEntry(env, Record(l));
      && (l.image.None? ==> r == Ok(l))
      && (l.image.Some? && l.image.value != "" ==> (r.Ok? <==> ClientImageUrl(env, l.image.value).Ok?))
      && (r.Ok? ==> r.value.(image := l.image) == l)
      && (r.Ok? && l.image.Some? && l.image.value != "" ==> r.value.image != l.image)
  {
    var m := Record(l).props;
    var first := Get(m["imageFileIds"], "0");
    assert ArrayIndex("0") == Some(0);
    if l.image.Some? && l.image.value != "" {
      var u := l.image.value;
      assert first == Str(u);
      var url := ClientImageUrl(env, u);
      if url.Ok? {
        assert |url.value| > |u|;
      }
    } else {
      assert first == Undefined;
    }
  }

  /** The shown lines all belong to the cart: every line of a load comes from a parseable cart entry. */
  lemma {:induction false} LoadedLinesComeFromEntries(s: Storage, c: Codec, env: Env, keys: seq<string>, l: Line)
    requires LoadLines(s, c, env, keys).Ok? && l in LoadLines(s, c, env, keys).value
    ensures exists k :: (k in keys && IsCartKey(k) && Present(s, k) && c.parse(s[k]).Some? &&
      LoadEntry(env, c.parse(s[k]).value) == Ok(l))
  {
    var k := keys[0];
    if IsCartKey(k) && Present(s, k) && c.parse(s[k]).Some? && LoadEntry(env, c.parse(s[k]).value) == Ok(l) {
    } else {
      LoadedLinesComeFromEntries(s, c, env, keys[1..], l);
      var k' :| k' in keys[1..] && IsCartKey(k') && Present(s, k') && c.parse(s[k']).Some? &&
        LoadEntry(env, c.parse(s[k']).value) == Ok(l);
      assert k' in keys;
    }
  }
}
