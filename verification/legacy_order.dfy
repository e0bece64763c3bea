/**
 * The older order path, `createOrder` of src/lib/order.ts. It shares the
 * field checks with the newer checkout action but trusts the client: item
 * prices and titles come from the posted cart, and a positive posted total
 * wins over the computed one.
 */
module LegacyOrder {
  import opened Wrappers
  import opened JsString
  import opened JsNumber
  import opened JsValue
  import opened Forms
  import opened DocStore
  import Checkout

  /** `toPrice(value)`: `Number(value)`, refused unless finite (negatives pass). */
  function ToPrice(s: string): (r: Result<real, Thrown>)
    ensures r.Ok? <==> StringToNumber(s).Finite?
    ensures r.Ok? ==> r.value == StringToNumber(s).r
    ensures r.Err? ==> r.error == Error("Price must be a valid number")
  {
    match StringToNumber(s)
    case Finite(x) => Ok(x)
    case _ => Err(Error("Price must be a valid number"))
  }

  /** An item as the client posted it. */
  datatype LegacyItem = LegacyItem(title: string, price: real, quantity: Num)

  /** The item fields after coercion: trimmed title, `Number(String(price ?? "0"))`, `Number(quantity ?? 0)`. */
  datatype RawItem = RawItem(title: string, price: Num, quantity: Num)

  function Raw(x: Value): RawItem {
    RawItem(TitleOf(x), PriceOf(x), QuantityOf(x))
  }

  function TitleOf(x: Value): string {
    Trim(ToStr(Coalesce(Get(x, "title"), Str(""))))
  }

  function PriceOf(x: Value): Num {
    StringToNumber(ToStr(Coalesce(Get(x, "price"), Str("0"))))
  }

  function QuantityOf(x: Value): Num {
    ToNumber(Coalesce(Get(x, "quantity"), Real(0.0)))
  }

  /** The `map` callback: `toPrice` throws for a non-finite price, before any filtering. */
  function Mapped(r: RawItem): (res: Result<LegacyItem, Thrown>)
    ensures res.Ok? <==> r.price.Finite?
    ensures res.Err? ==> res.error == Error("Price must be a valid number")
  {
    if r.price.Finite? then Ok(LegacyItem(r.title, r.price.r, r.quantity))
    else Err(Error("Price must be a valid number"))
  }

  /** `filter((item) => item && typeof item === "object")`. */
  function Objects(elems: seq<Value>): (r: seq<Value>)
    ensures forall x :: x in r <==> x in elems && IsObjectLike(x)
  {
    if elems == [] then []
    else if IsObjectLike(elems[0]) then [elems[0]] + Objects(elems[1..])
    else Objects(elems[1..])
  }

  /**
   * The coerced fields of each object. The coercion is a parameter so that
   * the shape of the pipeline can be reasoned about apart from `Raw`.
   */
  function RawsBy(objs: seq<Value>, coerce: Value -> RawItem): (rs: seq<RawItem>)
    ensures |rs| == |objs|
    ensures forall i :: 0 <= i < |objs| ==> rs[i] == coerce(objs[i])
  {
    seq(|objs|, i requires 0 <= i < |objs| => coerce(objs[i]))
  }

  /** `filter((item) => item.title && item.quantity > 0)`. */
  function Kept(items: seq<LegacyItem>): (r: seq<LegacyItem>)
    ensures forall it :: it in r <==> it in items && it.title != "" && Positive(it.quantity)
  {
    if items == [] then []
    else if items[0].title != "" && Positive(items[0].quantity) then [items[0]] + Kept(items[1..])
    else Kept(items[1..])
  }

  /** `map` over the objects: the first callback that throws aborts it. */
  function MapItems(raws: seq<RawItem>): (r: Result<seq<LegacyItem>, Thrown>)
    ensures r.Ok? <==> forall i :: 0 <= i < |raws| ==> raws[i].price.Finite?
    ensures r.Ok? ==> |r.value| == |raws|
    ensures r.Ok? ==> forall i :: 0 <= i < |raws| ==> r.value[i] == LegacyItem(raws[i].title, raws[i].price.r, raws[i].quantity)
  {
    if raws == [] then Ok([])
    else
      match Mapped(raws[0])
      case Err(e) => Err(e)
      case Ok(first) =>
        match MapItems(raws[1..])
        case Err(e) =>
          assert exists i :: 0 <= i < |raws[1..]| && !raws[1..][i].price.Finite?;
          Err(e)
        case Ok(rest) => Ok([first] + rest)
  }

  /** The try block over any coercion: a failure (bad JSON, a bad price) leaves `items` as []. */
  function ItemsBy(c: Codec, raw: string, coerce: Value -> RawItem): (items: seq<LegacyItem>)
    ensures c.parse(raw).None? ==> items == []
    ensures c.parse(raw).Some? && !c.parse(raw).value.Array? ==> items == []
  {
    match c.parse(raw)
    case Some(Array(a)) =>
      (match MapItems(RawsBy(Objects(a), coerce))
       case Ok(items) => Kept(items)
       case Err(_) => [])
    case _ => []
  }

  /** The items `createOrder` stores, parsed from the posted `items` text. */
  function ParseItems(c: Codec, raw: string): (items: seq<LegacyItem>)
    ensures c.parse(raw).None? ==> items == []
    ensures c.parse(raw).Some? && !c.parse(raw).value.Array? ==> items == []
  {
    ItemsBy(c, raw, Raw)
  }

  /** One object with an unusable price empties the whole list, whatever the other items hold. */
  lemma BadPriceEmptiesCart(c: Codec, raw: string, x: Value)
    requires c.parse(raw).Some? && c.parse(raw).value.Array?
    requires x in c.parse(raw).value.elems && IsObjectLike(x)
    requires !Raw(x).price.Finite?
    ensures ParseItems(c, raw) == []
  {
    BadCoercionEmptiesCart(c, raw, x, Raw);
  }

  lemma BadCoercionEmptiesCart(c: Codec, raw: string, x: Value, coerce: Value -> RawItem)
    requires c.parse(raw).Some? && c.parse(raw).value.Array?
    requires x in c.parse(raw).value.elems && IsObjectLike(x)
    requires !coerce(x).price.Finite?
    ensures ItemsBy(c, raw, coerce) == []
  {
    var objs := Objects(c.parse(raw).value.elems);
    assert x in objs;
    var i :| 0 <= i < |objs| && objs[i] == x;
    assert !RawsBy(objs, coerce)[i].price.Finite?;
  }

  /** With every price usable, an item is kept iff some raw item yields it with a non-blank title and a positive quantity. */
  lemma {:induction false} KeptItems(raws: seq<RawItem>, it: LegacyItem)
    requires forall i :: 0 <= i < |raws| ==> raws[i].price.Finite?
    ensures MapItems(raws).Ok?
    ensures it in Kept(MapItems(raws).value) <==>
      && it.title != "" && Positive(it.quantity)
      && exists i :: 0 <= i < |raws| && Mapped(raws[i]) == Ok(it)
  {
    var items := MapItems(raws).value;
    if it in items {
      var i :| 0 <= i < |items| && items[i] == it;
      assert Mapped(raws[i]) == Ok(it);
    }
    if exists i :: 0 <= i < |raws| && Mapped(raws[i]) == Ok(it) {
      var i :| 0 <= i < |raws| && Mapped(raws[i]) == Ok(it);
      assert items[i] == it;
    }
  }

  /** Neither floored nor merged: an object posted twice gives two items, with the quantity exactly as posted. */
  lemma QuantitiesKeptAsPosted(c: Codec, raw: string, x: Value, it: LegacyItem)
    requires c.parse(raw) == Some(Array([x, x])) && IsObjectLike(x)
    requires Mapped(Raw(x)) == Ok(it) && it.title != "" && Positive(it.quantity)
    ensures ParseItems(c, raw) == [it, it]
  {
    TwiceGivesTwo(c, raw, x, it, Raw);
  }

  lemma TwiceGivesTwo(c: Codec, raw: string, x: Value, it: LegacyItem, coerce: Value -> RawItem)
    requires c.parse(raw) == Some(Array([x, x])) && IsObjectLike(x)
    requires Mapped(coerce(x)) == Ok(it) && it.title != "" && Positive(it.quantity)
    ensures ItemsBy(c, raw, coerce) == [it, it]
  {
    assert [x, x][1..] == [x] && [x][1..] == [];
    assert Objects([x]) == [x];
    assert Objects([x, x]) == [x, x];
    var m := coerce(x);
    var rs := RawsBy([x, x], coerce);
    assert rs == [m, m];
    assert [m, m][1..] == [m] && [m][1..] == [];
    assert m.price.Finite? && it == LegacyItem(m.title, m.price.r, m.quantity);
    var ms := MapItems([m, m]);
    assert ms.Ok? && ms.value[0] == it && ms.value[1] == it;
    assert ms.value == [it, it];
    assert [it, it][1..] == [it] && [it][1..] == [];
    assert Kept([it]) == [it];
    assert Kept([it, it]) == [it, it];
  }

  /** A whole non-negative price survives `String` then `Number` unchanged. */
  lemma WholePriceReadBack(x: Value, n: nat)
    requires Get(x, "price") == Real(n as real)
    ensures PriceOf(x) == Finite(n as real)
  {
    assert (n as real).Floor == n;
    assert FractionDigits(0.0, MaxFractionDigits) == "";
    assert ToStr(Real(n as real)) == NatToString(n);
    NatRoundTrip(n);
  }

  /**
   * A posted line with a string title, a whole price and a numeric quantity
   * is read as the trimmed title, that price and the quantity exactly as
   * posted: a fractional quantity such as 1.5 is not floored.
   */
  lemma LineReadBack(x: Value, title: string, n: nat, q: real)
    requires Get(x, "title") == Str(title) && Get(x, "price") == Real(n as real) && Get(x, "quantity") == Real(q)
    ensures Raw(x) == RawItem(Trim(title), Finite(n as real), Finite(q))
  {
    WholePriceReadBack(x, n);
  }

  /** `items.reduce((sum, item) => sum + item.price * item.quantity, acc)`. */
  function ComputedFrom(acc: Num, items: seq<LegacyItem>): Num
    decreases |items|
  {
    if items == [] then acc else ComputedFrom(Add(acc, Mul(Finite(items[0].price), items[0].quantity)), items[1..])
  }

  /** Σ price × quantity over finite quantities. */
  function ItemSum(items: seq<LegacyItem>): real
    requires forall i :: 0 <= i < |items| ==> items[i].quantity.Finite?
  {
    if items == [] then 0.0 else items[0].price * items[0].quantity.r + ItemSum(items[1..])
  }

  /** With finite quantities the computed total is Σ price × quantity. */
  lemma {:induction false} ComputedIsSum(acc: real, items: seq<LegacyItem>)
    requires forall i :: 0 <= i < |items| ==> items[i].quantity.Finite?
    ensures ComputedFrom(Finite(acc), items) == Finite(acc + ItemSum(items))
    decreases |items|
  {
    if items != [] {
      var p := items[0].price;
      var q := items[0].quantity.r;
      assert Add(Finite(acc), Mul(Finite(p), items[0].quantity)) == Finite(acc + p * q);
      ComputedIsSum(acc + p * q, items[1..]);
    }
  }

  /** `parsedTotal > 0 ? parsedTotal : computedTotal`. */
  function ChooseTotal(parsed: real, computed: Num): (total: Num)
    ensures parsed > 0.0 ==> total == Finite(parsed)
    ensures parsed <= 0.0 ==> total == computed
  {
    if parsed > 0.0 then Finite(parsed) else computed
  }

  /** `x-vercel-ip-country`, else `cf-ipcountry`, else "unknown". */
  function Country(h: Headers): (country: string)
    ensures "x-vercel-ip-country" in h ==> country == h["x-vercel-ip-country"]
    ensures "x-vercel-ip-country" !in h && "cf-ipcountry" in h ==> country == h["cf-ipcountry"]
    ensures "x-vercel-ip-country" !in h && "cf-ipcountry" !in h ==> country == "unknown"
  {
    match HeaderGet(h, "x-vercel-ip-country")
    case Some(v) => v
    case None => HeaderGet(h, "cf-ipcountry").GetOr("unknown")
  }

  /** The form fields as the newer action reads them, with the client details taken from the request headers. */
  function ReadRequest(f: FormData, h: Headers): (cf: Checkout.CheckoutForm)
    ensures cf.ipAddress == ClientIp(h)
    ensures cf.userAgent == HeaderGet(h, "user-agent").GetOr("unknown")
    ensures cf.sourceCountry == Country(h)
    ensures cf.(ipAddress := "", userAgent := "", sourceCountry := "") ==
      Checkout.ReadForm(f).(ipAddress := "", userAgent := "", sourceCountry := "")
  {
    Checkout.ReadForm(f).(
      ipAddress := ClientIp(h),
      userAgent := HeaderGet(h, "user-agent").GetOr("unknown"),
      sourceCountry := Country(h))
  }

  function ItemAttrs(headerId: string, it: LegacyItem): map<string, Value> {
    map["oreders" := Str(headerId), "title" := Str(it.title), "price" := Real(it.price), "quantity" := Number(it.quantity)]
  }

  function ItemDocs(headerId: string, items: seq<LegacyItem>): (ds: seq<map<string, Value>>)
    ensures |ds| == |items|
    ensures forall i :: 0 <= i < |items| ==> ds[i] == ItemAttrs(headerId, items[i])
  {
    seq(|items|, i requires 0 <= i < |items| => ItemAttrs(headerId, items[i]))
  }

  /** What the legacy action returns. */
  datatype LegacyReceipt = LegacyReceipt(id: string, orderNumber: string)

  /** The writes: the header always, the items only when there are some. */
  function WriteLegacy(db: Db, cf: Checkout.CheckoutForm, number: string, items: seq<LegacyItem>, total: Num,
                       createdAt: string, newId: nat -> string): (o: Outcome<LegacyReceipt>)
    ensures o.db.products == db.products && o.db.files == db.files
    ensures newId(0) !in Ids(db.orders) ==>
      o.db.orders == db.orders + [Doc(newId(0), createdAt, Sent(Checkout.HeaderAttrs(number, cf, Number(total))))]
    ensures items == [] ==> o.db.orderItems == db.orderItems
    ensures o.result.Ok? ==> o.result.value == LegacyReceipt(newId(0), number)
  {
    match Create(db.orders, newId(0), createdAt, Checkout.HeaderAttrs(number, cf, Number(total)))
    case Err(e) => Outcome(db, Err(e))
    case Ok(orders) =>
      if items == [] then Outcome(db.(orders := orders), Ok(LegacyReceipt(newId(0), number)))
      else
        var written := CreateAll(db.orderItems, ItemDocs(newId(0), items), newId, 1, createdAt);
        var db' := db.(orders := orders, orderItems := written.0);
        match written.1
        case Some(e) => Outcome(db', Err(e))
        case None => Outcome(db', Ok(LegacyReceipt(newId(0), number)))
  }

  /** `createOrder(formData, requestHeaders)` of src/lib/order.ts. */
  function CreateOrder(f: FormData, h: Headers, c: Codec, db: Db, now: nat, draw: nat, createdAt: string, newId: nat -> string)
    : (o: Outcome<LegacyReceipt>)
    ensures o.db.products == db.products && o.db.files == db.files
    ensures Checkout.CheckRequired(ReadRequest(f, h)).Some? ==>
      o == Outcome(db, Err(Checkout.CheckRequired(ReadRequest(f, h)).value))
    ensures Checkout.CheckRequired(ReadRequest(f, h)).None? && ToPrice(FieldOr(f, "totalAmount", "0")).Err? ==>
      o == Outcome(db, Err(Error("Price must be a valid number")))
  {
    var cf := ReadRequest(f, h);
    match Checkout.CheckRequired(cf)
    case Some(e) => Outcome(db, Err(e))
    case None =>
      var items := ParseItems(c, cf.itemsRaw);
      match ToPrice(FieldOr(f, "totalAmount", "0"))
      case Err(e) => Outcome(db, Err(e))
      case Ok(parsed) =>
        var total := ChooseTotal(parsed, ComputedFrom(Finite(0.0), items));
        WriteLegacy(db, cf, Checkout.OrderNumber(now, draw), items, total, createdAt, newId)
  }

  /** The header's stored total is the chosen total after the JSON round trip. */
  lemma HeaderTotal(number: string, cf: Checkout.CheckoutForm, total: Value)
    requires total != Undefined
    ensures var m := Sent(Checkout.HeaderAttrs(number, cf, total));
      "totalAmount" in m && m["totalAmount"] == Normalize(total)
  {
  }

  /** A positive posted total is stored as is, whatever the items add up to. */
  lemma PositiveClientTotalWins(f: FormData, h: Headers, c: Codec, db: Db, now: nat, draw: nat, createdAt: string, newId: nat -> string)
    requires Checkout.CheckRequired(ReadRequest(f, h)).None?
    requires ToPrice(FieldOr(f, "totalAmount", "0")).Ok? && ToPrice(FieldOr(f, "totalAmount", "0")).value > 0.0
    requires newId(0) !in Ids(db.orders)
    ensures var o := CreateOrder(f, h, c, db, now, draw, createdAt, newId);
      && |o.db.orders| == |db.orders| + 1
      && var header := o.db.orders[|db.orders|];
      "totalAmount" in header.attrs && header.attrs["totalAmount"] == Real(ToPrice(FieldOr(f, "totalAmount", "0")).value)
  {
    var cf := ReadRequest(f, h);
    var t := ToPrice(FieldOr(f, "totalAmount", "0")).value;
    var items := ParseItems(c, cf.itemsRaw);
    var number := Checkout.OrderNumber(now, draw);
    assert CreateOrder(f, h, c, db, now, draw, createdAt, newId) == WriteLegacy(db, cf, number, items, Finite(t), createdAt, newId);
    HeaderTotal(number, cf, Real(t));
  }

  /** There is no empty-cart check: with no usable items the header is still written and no item is. */
  lemma EmptyCartStillWritesHeader(f: FormData, h: Headers, c: Codec, db: Db, now: nat, draw: nat, createdAt: string, newId: nat -> string)
    requires Checkout.CheckRequired(ReadRequest(f, h)).None?
    requires ToPrice(FieldOr(f, "totalAmount", "0")).Ok?
    requires ParseItems(c, ReadRequest(f, h).itemsRaw) == []
    requires newId(0) !in Ids(db.orders)
    ensures var o := CreateOrder(f, h, c, db, now, draw, createdAt, newId);
      && o.result == Ok(LegacyReceipt(newId(0), Checkout.OrderNumber(now, draw)))
      && |o.db.orders| == |db.orders| + 1
      && o.db.orderItems == db.orderItems
  {
  }
}
