/**
 * The storefront's order-placing action `createOrder`
 * (src/actions/site/checkout.ts): it validates the customer fields, reads
 * the posted cart, prices every product from the catalogue (never from the
 * client), and writes one order header and one order-item document per
 * product.
 */
module Checkout {
  import opened Wrappers
  import opened JsString
  import opened JsNumber
  import opened JsValue
  import opened Forms
  import opened DocStore
  import opened CheckoutCart

  /** The form fields `createOrder` reads, already coerced as the action does. */
  datatype CheckoutForm = CheckoutForm(
    fullName: string, phone: string, email: string, address: string, city: string,
    postalCode: string, notes: string, itemsRaw: string,
    ipAddress: string, userAgent: string, sourceCountry: string)

  /** Text fields are trimmed and default to ""; `items` defaults to "[]"; the client details become "null" when absent. */
  function ReadForm(f: FormData): (cf: CheckoutForm)
    ensures FormGet(f, "items").None? ==> cf.itemsRaw == "[]"
    ensures FormGet(f, "ipAddress").None? ==> cf.ipAddress == "null"
    ensures FormGet(f, "fullName").None? ==> cf.fullName == ""
  {
    CheckoutForm(
      TrimmedField(f, "fullName"), TrimmedField(f, "phone"), TrimmedField(f, "email"),
      TrimmedField(f, "address"), TrimmedField(f, "city"), TrimmedField(f, "postalCode"),
      TrimmedField(f, "notes"), FieldOr(f, "items", "[]"),
      FieldRaw(f, "ipAddress"), FieldRaw(f, "userAgent"), FieldRaw(f, "sourceCountry"))
  }

  /** The required-field checks, in the order the action makes them: the first blank field is reported. */
  function CheckRequired(cf: CheckoutForm): (r: Option<Thrown>)
    ensures r.None? <==> cf.fullName != "" && cf.phone != "" && cf.address != "" && cf.city != "" && cf.postalCode != ""
    ensures cf.fullName == "" ==> r == Some(Error("Full name is required"))
    ensures cf.fullName != "" && cf.phone == "" ==> r == Some(Error("Phone number is required"))
    ensures cf.fullName != "" && cf.phone != "" && cf.address == "" ==> r == Some(Error("Address is required"))
    ensures cf.fullName != "" && cf.phone != "" && cf.address != "" && cf.city == "" ==> r == Some(Error("City is required"))
    ensures cf.fullName != "" && cf.phone != "" && cf.address != "" && cf.city != "" && cf.postalCode == "" ==> r == Some(Error("Postal code is required"))
    ensures r.Some? ==> r.value.Error?
  {
    if cf.fullName == "" then Some(Error("Full name is required"))
    else if cf.phone == "" then Some(Error("Phone number is required"))
    else if cf.address == "" then Some(Error("Address is required"))
    else if cf.city == "" then Some(Error("City is required"))
    else if cf.postalCode == "" then Some(Error("Postal code is required"))
    else None
  }

  /** `ORDER-${Date.now()}-${Math.floor(Math.random() * 1000)}`, with the clock and the draw as inputs. */
  function OrderNumber(now: nat, draw: nat): (n: string)
    ensures StartsWith(n, "ORDER-")
    ensures |n| >= 9
  {
    "ORDER-" + NatToString(now) + "-" + NatToString(draw)
  }

  // ---------------------------------------------------------------------
  // Pricing from the catalogue
  // ---------------------------------------------------------------------

  /** The query for the cart's products: one equality on `$id` and a page of 100. */
  function ProductQueries(ids: seq<string>): (qs: seq<Query>)
    ensures PageSize(qs) == 100
  {
    [Equal("$id", seq(|ids|, i requires 0 <= i < |ids| => Str(ids[i]))), Limit(100)]
  }

  /** `productById.get(id)`: the Map built from the page keeps the last document with an id. */
  function FindDoc(docs: seq<Doc>, id: string): (r: Option<Doc>)
    ensures r.Some? ==> r.value in docs && r.value.id == id
    ensures r.None? <==> id !in Ids(docs)
  {
    if docs == [] then None
    else if docs[|docs| - 1].id == id then Some(docs[|docs| - 1])
    else
      assert Ids(docs) == Ids(docs[..|docs| - 1]) + [docs[|docs| - 1].id];
      FindDoc(docs[..|docs| - 1], id)
  }

  /** `productIds.filter((id) => !productById.has(id))`. */
  function Missing(ids: seq<string>, docs: seq<Doc>): (r: seq<string>)
    ensures forall x :: x in r <==> x in ids && x !in Ids(docs)
  {
    if ids == [] then []
    else
      var rest := Missing(ids[1..], docs);
      if FindDoc(docs, ids[0]).None? then [ids[0]] + rest else rest
  }

  const MissingPrefix := "Some items are no longer available: "

  /** The missing-items message: the fixed prefix, then the ids joined by ", ". */
  function MissingMessage(missing: seq<string>): (m: string)
    ensures StartsWith(m, MissingPrefix)
    ensures missing == [] ==> m == MissingPrefix
  {
    MissingPrefix + JoinWith(missing, ", ")
  }

  /** The message names every missing id. */
  lemma MissingMessageNames(missing: seq<string>, x: string)
    requires x in missing
    ensures Includes(MissingMessage(missing), x)
  {
    var i :| 0 <= i < |missing| && missing[i] == x;
    var joined := JoinWith(missing, ", ");
    JoinWithIncludes(missing, ", ", i);
    var k :| 0 <= k <= |joined| && IncludesAt(joined, x, k);
    var m := MissingMessage(missing);
    var off := |MissingPrefix|;
    assert m[off + k..off + k + |x|] == joined[k..k + |x|];
    assert IncludesAt(m, x, off + k);
  }

  /** `price * quantity`. */
  function LineTotal(price: real, qty: int): real {
    price * qty as real
  }

  /** A priced order line. */
  datatype OrderLine = OrderLine(productId: string, title: string, price: real, quantity: int, lineTotal: real)

  /** How a product is named in an error: its title if set, else its id. */
  function Label(d: Doc): string {
    ToStr(Coalesce(Attr(d, "title"), Str(d.id)))
  }

  /** The checks on one product, over its coerced fields: switched off, then price not finite and non-negative. */
  function LineFrom(id: string, switchedOff: bool, name: string, title: string, price: Num, qty: int)
    : (r: Result<OrderLine, Thrown>)
    ensures switchedOff ==> r == Err(Error("Product unavailable: " + name))
    ensures !switchedOff && !(price.Finite? && price.r >= 0.0) ==> r == Err(Error("Invalid price for product: " + name))
    ensures r.Ok? <==> !switchedOff && price.Finite? && price.r >= 0.0
    ensures r.Ok? ==> r.value == OrderLine(id, title, price.r, qty, LineTotal(price.r, qty))
  {
    if switchedOff then Err(Error("Product unavailable: " + name))
    else if !price.Finite? || price.r < 0.0 then Err(Error("Invalid price for product: " + name))
    else Ok(OrderLine(id, title, price.r, qty, LineTotal(price.r, qty)))
  }

  /**
   * One product's line: refused when `isActive` is exactly false or when
   * `Number(price)` is not a finite non-negative number; the title is trimmed.
   */
  function PriceLine(d: Doc, qty: int): (r: Result<OrderLine, Thrown>)
    ensures Attr(d, "isActive") == Bool(false) ==> r == Err(Error("Product unavailable: " + Label(d)))
    ensures Attr(d, "isActive") != Bool(false) && !(ToNumber(Attr(d, "price")).Finite? && ToNumber(Attr(d, "price")).r >= 0.0)
      ==> r == Err(Error("Invalid price for product: " + Label(d)))
    ensures "isActive" !in d.attrs ==> (r.Ok? <==> ToNumber(Attr(d, "price")).Finite? && ToNumber(Attr(d, "price")).r >= 0.0)
    ensures r.Ok? ==> Attr(d, "isActive") != Bool(false)
    ensures r.Ok? ==> && r.value.productId == d.id && r.value.quantity == qty
                      && ToNumber(Attr(d, "price")) == Finite(r.value.price) && r.value.price >= 0.0
                      && r.value.lineTotal == r.value.price * qty as real
  {
    LineFrom(d.id, Attr(d, "isActive") == Bool(false), Label(d),
      Trim(ToStr(Coalesce(Attr(d, "title"), Str("")))), ToNumber(Attr(d, "price")), qty)
  }

  /** The line for one id; a product missing from the page would make `p.isActive` throw. */
  function LineFor(docs: seq<Doc>, qty: QtyMap, id: string): (r: Result<OrderLine, Thrown>)
    ensures id !in Ids(docs) ==> r == Err(TypeError)
    ensures r.Ok? ==> r.value.productId == id && r.value.quantity == Lookup(qty, id) && r.value.price >= 0.0
  {
    match FindDoc(docs, id)
    case None => Err(TypeError)
    case Some(d) => PriceLine(d, Lookup(qty, id))
  }

  /** `productIds.map(...)`: one line per id, the first failing product aborting the map. */
  function PriceLines(ids: seq<string>, qty: QtyMap, docs: seq<Doc>): (r: Result<seq<OrderLine>, Thrown>)
    ensures r.Ok? <==> forall i :: 0 <= i < |ids| ==> LineFor(docs, qty, ids[i]).Ok?
    ensures r.Ok? ==> |r.value| == |ids| && forall i :: 0 <= i < |ids| ==> r.value[i].productId == ids[i]
  {
    var rs := seq(|ids|, i requires 0 <= i < |ids| => LineFor(docs, qty, ids[i]));
    assert forall i :: 0 <= i < |ids| ==> rs[i] == LineFor(docs, qty, ids[i]);
    AllOk(rs)
  }

  /** `orderItems.reduce((sum, it) => sum + it.lineTotal, 0)`. */
  function TotalFrom(acc: real, lines: seq<OrderLine>): real
    decreases |lines|
  {
    if lines == [] then acc else TotalFrom(acc + lines[0].lineTotal, lines[1..])
  }

  /** Σ price × quantity over the lines. */
  function LineSum(lines: seq<OrderLine>): real {
    if lines == [] then 0.0 else LineTotal(lines[0].price, lines[0].quantity) + LineSum(lines[1..])
  }

  /** The running total is Σ price × quantity of lines whose total is price × quantity. */
  lemma {:induction false} TotalIsLineSum(acc: real, lines: seq<OrderLine>)
    requires forall i :: 0 <= i < |lines| ==> lines[i].lineTotal == LineTotal(lines[i].price, lines[i].quantity)
    ensures TotalFrom(acc, lines) == acc + LineSum(lines)
    decreases |lines|
  {
    if lines != [] {
      TotalIsLineSum(acc + lines[0].lineTotal, lines[1..]);
    }
  }

  // ---------------------------------------------------------------------
  // Writing the order
  // ---------------------------------------------------------------------

  /** `value || undefined`: a blank optional field is not sent. */
  function Optional(s: string): Value {
    if s == "" then Undefined else Str(s)
  }

  /** The order header's attributes. */
  function HeaderAttrs(orderNumber: string, cf: CheckoutForm, total: Value): map<string, Value> {
    map[
      "orderNumber" := Str(orderNumber), "fullName" := Str(cf.fullName), "phone" := Str(cf.phone),
      "email" := Optional(cf.email), "address" := Str(cf.address), "city" := Str(cf.city),
      "postalCode" := Str(cf.postalCode), "totalAmount" := total, "notes" := Optional(cf.notes),
      "ipAddress" := Str(cf.ipAddress), "userAgent" := Str(cf.userAgent),
      "sourceCountry" := Str(cf.sourceCountry), "status" := Str("ordered")]
  }

  /** One order item's attributes; the link to the header is the attribute spelled "oreders". */
  function ItemAttrs(headerId: string, l: OrderLine): map<string, Value> {
    map[
      "oreders" := Str(headerId), "$id" := Str(l.productId), "title" := Str(l.title),
      "price" := Real(l.price), "quantity" := Real(l.quantity as real)]
  }

  function ItemDocs(headerId: string, items: seq<OrderLine>): (ds: seq<map<string, Value>>)
    ensures |ds| == |items|
    ensures forall i :: 0 <= i < |items| ==> ds[i] == ItemAttrs(headerId, items[i])
  {
    seq(|items|, i requires 0 <= i < |items| => ItemAttrs(headerId, items[i]))
  }

  /** The receipt `createOrder` returns on success. */
  datatype Receipt = Receipt(id: string, orderNumber: string, totalAmount: real, items: seq<OrderLine>)

  /** The writes once every line is priced: the header first, then the items under its id. */
  function WriteOrder(db: Db, cf: CheckoutForm, number: string, items: seq<OrderLine>, createdAt: string, newId: nat -> string)
    : (o: Outcome<Receipt>)
    ensures o.db.products == db.products && o.db.files == db.files
    ensures o.result.Err? ==> o.result.error == Backend(AlreadyExists)
    ensures o.db != db ==> o.db.orders == db.orders + [Doc(newId(0), createdAt, Sent(HeaderAttrs(number, cf, Real(TotalFrom(0.0, items)))))]
    ensures o.result.Ok? ==> o.result.value == Receipt(newId(0), number, TotalFrom(0.0, items), items)
    ensures o.result.Ok? ==> o.db.orders == db.orders + [Doc(newId(0), createdAt, Sent(HeaderAttrs(number, cf, Real(TotalFrom(0.0, items)))))]
    ensures o.result.Ok? ==> |o.db.orderItems| == |db.orderItems| + |items|
    ensures o.result.Ok? ==> forall i :: 0 <= i < |items| ==>
      o.db.orderItems[|db.orderItems| + i] == Doc(newId(i + 1), createdAt, Sent(ItemAttrs(newId(0), items[i])))
  {
    var total := TotalFrom(0.0, items);
    match Create(db.orders, newId(0), createdAt, HeaderAttrs(number, cf, Real(total)))
    case Err(e) => Outcome(db, Err(e))
    case Ok(orders) =>
      var written := CreateAll(db.orderItems, ItemDocs(newId(0), items), newId, 1, createdAt);
      var db' := db.(orders := orders, orderItems := written.0);
      match written.1
      case Some(e) => Outcome(db', Err(e))
      case None => Outcome(db', Ok(Receipt(newId(0), number, total, items)))
  }

  /** From the parsed cart on: merge, look the products up, price them, write. */
  function PlaceOrder(db: Db, cf: CheckoutForm, lines: seq<CartLine>, number: string, createdAt: string, newId: nat -> string)
    : (o: Outcome<Receipt>)
    ensures o.db.products == db.products && o.db.files == db.files
    ensures o.result.Err? && !o.result.error.Backend? ==> o.db == db
    ensures o.db != db ==> |o.db.orders| == |db.orders| + 1 && o.db.orders[..|db.orders|] == db.orders
  {
    if lines == [] then Outcome(db, Err(Error("Cart is empty")))
    else
      var qty := Merge(lines);
      var ids := Keys(qty);
      var docs := List(db.products, ProductQueries(ids));
      var missing := Missing(ids, docs);
      if missing != [] then Outcome(db, Err(Error(MissingMessage(missing))))
      else
        match PriceLines(ids, qty, docs)
        case Err(e) => Outcome(db, Err(e))
        case Ok(items) => WriteOrder(db, cf, number, items, createdAt, newId)
  }

  /**
   * `createOrder(formData)`. The clock, the random draw, the creation time and
   * the ids the backend hands out (`newId(0)` for the header, then one per
   * item) are inputs.
   */
  function CreateOrder(f: FormData, c: Codec, db: Db, now: nat, draw: nat, createdAt: string, newId: nat -> string)
    : (o: Outcome<Receipt>)
    ensures o.db.products == db.products && o.db.files == db.files
    ensures CheckRequired(ReadForm(f)).Some? ==> o == Outcome(db, Err(CheckRequired(ReadForm(f)).value))
  {
    var cf := ReadForm(f);
    match CheckRequired(cf)
    case Some(e) => Outcome(db, Err(e))
    case None => PlaceOrder(db, cf, ParseCartItems(c, cf.itemsRaw), OrderNumber(now, draw), createdAt, newId)
  }

  /** Nothing is written for an empty cart. */
  lemma EmptyCartRejected(f: FormData, c: Codec, db: Db, now: nat, draw: nat, createdAt: string, newId: nat -> string)
    requires CheckRequired(ReadForm(f)).None?
    requires ParseCartItems(c, ReadForm(f).itemsRaw) == []
    ensures CreateOrder(f, c, db, now, draw, createdAt, newId) == Outcome(db, Err(Error("Cart is empty")))
  {
  }

  lemma NotInSubset(docs: seq<Doc>, all: seq<Doc>, x: string)
    requires forall d :: d in docs ==> d in all
    requires x !in Ids(all)
    ensures x !in Ids(docs)
  {
    forall i | 0 <= i < |docs|
      ensures docs[i].id != x
    {
      assert docs[i] in all;
      var j :| 0 <= j < |all| && all[j] == docs[i];
      assert Ids(all)[j] == docs[i].id;
    }
  }

  /** A cart naming a product the catalogue lacks is refused with the missing-items message, and nothing is written. */
  lemma UnknownProductRejected(db: Db, cf: CheckoutForm, lines: seq<CartLine>, number: string, createdAt: string,
                               newId: nat -> string, x: string)
    requires x in ProductIds(lines) && x !in Ids(db.products)
    ensures var ids := Keys(Merge(lines));
      PlaceOrder(db, cf, lines, number, createdAt, newId)
        == Outcome(db, Err(Error(MissingMessage(Missing(ids, List(db.products, ProductQueries(ids)))))))
    ensures var o := PlaceOrder(db, cf, lines, number, createdAt, newId);
      o.result.Err? && o.result.error.Error? && Includes(o.result.error.message, x)
  {
    var qty := Merge(lines);
    var ids := Keys(qty);
    var docs := List(db.products, ProductQueries(ids));
    assert x in ids;
    NotInSubset(docs, db.products, x);
    assert x in Missing(ids, docs);
    MissingMessageNames(Missing(ids, docs), x);
  }

  /** What a successful line carries: the catalogue's price for that id and the merged quantity. */
  lemma LineForFacts(docs: seq<Doc>, qty: QtyMap, id: string)
    requires LineFor(docs, qty, id).Ok?
    ensures var l := LineFor(docs, qty, id).value;
      && l.productId == id
      && l.quantity == Lookup(qty, id)
      && l.price >= 0.0
      && l.lineTotal == LineTotal(l.price, l.quantity)
      && exists d :: d in docs && d.id == id && ToNumber(Attr(d, "price")) == Finite(l.price)
  {
    var d := FindDoc(docs, id).value;
    assert LineFor(docs, qty, id) == PriceLine(d, Lookup(qty, id));
  }

  /** The line for `ids[j]` is the first of the cart's lines that fails to price. */
  predicate FirstFailure(ids: seq<string>, qty: QtyMap, docs: seq<Doc>, j: int) {
    && 0 <= j < |ids|
    && LineFor(docs, qty, ids[j]).Err?
    && forall k :: 0 <= k < j ==> LineFor(docs, qty, ids[k]).Ok?
  }

  /** The map over the ids throws the first failing line's error. */
  lemma FirstFailureAborts(ids: seq<string>, qty: QtyMap, docs: seq<Doc>, j: int)
    requires FirstFailure(ids, qty, docs, j)
    ensures PriceLines(ids, qty, docs) == Err(LineFor(docs, qty, ids[j]).error)
  {
    var rs := seq(|ids|, i requires 0 <= i < |ids| => LineFor(docs, qty, ids[i]));
    assert rs[j].Err?;
    var r := AllOk(rs);
    var i :| 0 <= i < |rs| && rs[i] == Err(r.error) && forall k :: 0 <= k < i ==> rs[k].Ok?;
    assert i == j;
  }

  /** Once every id is on the page, a pricing failure is thrown as is and nothing is written. */
  lemma PricingFailureRejected(db: Db, cf: CheckoutForm, lines: seq<CartLine>, number: string, createdAt: string,
                               newId: nat -> string, ids: seq<string>, docs: seq<Doc>, j: int)
    requires ids == Keys(Merge(lines)) && docs == List(db.products, ProductQueries(ids))
    requires Missing(ids, docs) == []
    requires FirstFailure(ids, Merge(lines), docs, j)
    ensures PlaceOrder(db, cf, lines, number, createdAt, newId) == Outcome(db, Err(LineFor(docs, Merge(lines), ids[j]).error))
  {
    assert ids[j] in ProductIds(lines);
    FirstFailureAborts(ids, Merge(lines), docs, j);
  }

  /**
   * A product whose `isActive` is false, reached before any other failing
   * product, refuses the order with "Product unavailable" and its label.
   */
  lemma InactiveProductRejected(db: Db, cf: CheckoutForm, lines: seq<CartLine>, number: string, createdAt: string,
                                newId: nat -> string, ids: seq<string>, docs: seq<Doc>, j: int, d: Doc)
    requires ids == Keys(Merge(lines)) && docs == List(db.products, ProductQueries(ids))
    requires Missing(ids, docs) == []
    requires 0 <= j < |ids| && forall k :: 0 <= k < j ==> LineFor(docs, Merge(lines), ids[k]).Ok?
    requires FindDoc(docs, ids[j]) == Some(d) && Attr(d, "isActive") == Bool(false)
    ensures PlaceOrder(db, cf, lines, number, createdAt, newId) == Outcome(db, Err(Error("Product unavailable: " + Label(d))))
  {
    PricingFailureRejected(db, cf, lines, number, createdAt, newId, ids, docs, j);
  }

  /**
   * An active product whose price is not a finite non-negative number, reached
   * before any other failing product, refuses the order with "Invalid price".
   */
  lemma InvalidPriceRejected(db: Db, cf: CheckoutForm, lines: seq<CartLine>, number: string, createdAt: string,
                             newId: nat -> string, ids: seq<string>, docs: seq<Doc>, j: int, d: Doc)
    requires ids == Keys(Merge(lines)) && docs == List(db.products, ProductQueries(ids))
    requires Missing(ids, docs) == []
    requires 0 <= j < |ids| && forall k :: 0 <= k < j ==> LineFor(docs, Merge(lines), ids[k]).Ok?
    requires FindDoc(docs, ids[j]) == Some(d) && Attr(d, "isActive") != Bool(false)
    requires !(ToNumber(Attr(d, "price")).Finite? && ToNumber(Attr(d, "price")).r >= 0.0)
    ensures PlaceOrder(db, cf, lines, number, createdAt, newId) == Outcome(db, Err(Error("Invalid price for product: " + Label(d))))
  {
    PricingFailureRejected(db, cf, lines, number, createdAt, newId, ids, docs, j);
  }

  /** The priced lines of a cart: one per merged id, in order, priced from the catalogue page. */
  lemma PricedItems(db: Db, lines: seq<CartLine>, items: seq<OrderLine>)
    requires var qty := Merge(lines);
      PriceLines(Keys(qty), qty, List(db.products, ProductQueries(Keys(qty)))) == Ok(items)
    ensures |items| == |Keys(Merge(lines))|
    ensures TotalFrom(0.0, items) == LineSum(items)
    ensures forall i :: 0 <= i < |items| ==>
      && items[i].productId == Keys(Merge(lines))[i]
      && items[i].productId in ProductIds(lines)
      && items[i].quantity == Occurrences(lines, items[i].productId)
      && items[i].price >= 0.0
      && exists d :: d in db.products && d.id == items[i].productId && ToNumber(Attr(d, "price")) == Finite(items[i].price)
  {
    var qty := Merge(lines);
    var ids := Keys(qty);
    var docs := List(db.products, ProductQueries(ids));
    var rs := seq(|ids|, i requires 0 <= i < |ids| => LineFor(docs, qty, ids[i]));
    forall i | 0 <= i < |items|
      ensures && items[i].productId == ids[i]
              && items[i].productId in ProductIds(lines)
              && items[i].quantity == Occurrences(lines, items[i].productId)
              && items[i].price >= 0.0
              && items[i].lineTotal == LineTotal(items[i].price, items[i].quantity)
              && exists d :: d in db.products && d.id == items[i].productId && ToNumber(Attr(d, "price")) == Finite(items[i].price)
    {
      assert rs[i] == Ok(items[i]);
      LineForFacts(docs, qty, ids[i]);
      MergeSums(lines, ids[i]);
      var d :| d in docs && d.id == ids[i] && ToNumber(Attr(d, "price")) == Finite(items[i].price);
      assert d in db.products;
    }
    TotalIsLineSum(0.0, items);
  }

  /**
   * A placed order: one header holding Σ price × quantity as its total and
   * status "ordered", then one item per distinct product under the header's
   * id, each with the summed cart quantity and the catalogue price.
   */
  lemma SuccessfulOrder(db: Db, cf: CheckoutForm, lines: seq<CartLine>, number: string, createdAt: string, newId: nat -> string)
    requires PlaceOrder(db, cf, lines, number, createdAt, newId).result.Ok?
    ensures var o := PlaceOrder(db, cf, lines, number, createdAt, newId);
      var r := o.result.value;
      && r.id == newId(0) && r.orderNumber == number
      && o.db.orders == db.orders + [Doc(newId(0), createdAt, Sent(HeaderAttrs(number, cf, Real(r.totalAmount))))]
      && r.totalAmount == LineSum(r.items)
      && |o.db.orderItems| == |db.orderItems| + |r.items|
      && (forall i :: 0 <= i < |r.items| ==>
            o.db.orderItems[|db.orderItems| + i] == Doc(newId(i + 1), createdAt, Sent(ItemAttrs(newId(0), r.items[i]))))
      && |r.items| == |Keys(Merge(lines))|
      && (forall i :: 0 <= i < |r.items| ==>
            && r.items[i].productId == Keys(Merge(lines))[i]
            && r.items[i].productId in ProductIds(lines)
            && r.items[i].quantity == Occurrences(lines, r.items[i].productId)
            && r.items[i].price >= 0.0
            && exists d :: d in db.products && d.id == r.items[i].productId && ToNumber(Attr(d, "price")) == Finite(r.items[i].price))
  {
    var qty := Merge(lines);
    var ids := Keys(qty);
    var docs := List(db.products, ProductQueries(ids));
    var items := PriceLines(ids, qty, docs).value;
    assert PlaceOrder(db, cf, lines, number, createdAt, newId) == WriteOrder(db, cf, number, items, createdAt, newId);
    PricedItems(db, lines, items);
  }
}
