/**
 * The JSON order endpoint, `POST` of src/app/api/orders/route.ts: it turns
 * the posted body into the form the checkout action reads, runs that action,
 * answers 201 or 400, and builds the e-mail notification from the body and
 * the priced lines.
 */
module OrdersRoute {
  import opened Wrappers
  import opened JsString
  import opened JsNumber
  import opened JsValue
  import opened Forms
  import opened DocStore
  import Checkout

  /** The only body fields copied into the form. */
  const CopiedFields: seq<string> := ["fullName", "phone", "email", "address", "city", "postalCode", "notes"]

  /** The form fields the route fills from the request itself, never from the body. */
  const ServerFields: seq<string> := ["ipAddress", "userAgent", "sourceCountry", "items"]

  /** No copied field is one the route fills itself: the names differ in length or in their first letter. */
  lemma CopiedNotServer()
    ensures forall k :: k in CopiedFields ==> k !in ServerFields
  {
    forall k | k in CopiedFields
      ensures k !in ServerFields
    {
      assert |k| != 9 && |k| != 13;
      assert |k| == 5 ==> k[0] != 'i';
    }
  }

  /** The copy loop over `fields`: a field whose body value is null or undefined is left unset, any other is set to `String(value)`. */
  function CopyFields(body: Value, fields: seq<string>, f: FormData): FormData
    decreases |fields|
  {
    if fields == [] then f
    else
      var k := fields[0];
      var v := Get(body, k);
      var next := if Nullish(v) then f else FormSet(f, k, ToStr(v));
      CopyFields(body, fields[1..], next)
  }

  /** What the copy loop leaves in the form, field by field. */
  lemma {:induction false} CopyFieldsSets(body: Value, fields: seq<string>, f: FormData)
    ensures forall k :: k !in fields ==> FormGet(CopyFields(body, fields, f), k) == FormGet(f, k)
    ensures forall k :: k in fields && Nullish(Get(body, k)) ==> FormGet(CopyFields(body, fields, f), k) == FormGet(f, k)
    ensures forall k :: k in fields && !Nullish(Get(body, k)) ==> FormGet(CopyFields(body, fields, f), k) == Some(Text(ToStr(Get(body, k))))
    decreases |fields|
  {
    if fields != [] {
      var k := fields[0];
      var v := Get(body, k);
      var next := if Nullish(v) then f else FormSet(f, k, ToStr(v));
      CopyFieldsSets(body, fields[1..], next);
      assert CopyFields(body, fields, f) == CopyFields(body, fields[1..], next);
      forall j | j in fields
        ensures j == k || j in fields[1..]
      {
        assert fields == [k] + fields[1..];
      }
    }
  }

  /** The four `formData.set` calls after the copy loop. */
  function WithServerFields(f: FormData, ip: string, agent: string, country: string, items: string): (r: FormData)
    ensures FormGet(r, "ipAddress") == Some(Text(ip))
    ensures FormGet(r, "userAgent") == Some(Text(agent))
    ensures FormGet(r, "sourceCountry") == Some(Text(country))
    ensures FormGet(r, "items") == Some(Text(items))
    ensures forall k :: k !in ServerFields ==> FormGet(r, k) == FormGet(f, k)
  {
    FormSet(FormSet(FormSet(FormSet(f, "ipAddress", ip), "userAgent", agent), "sourceCountry", country), "items", items)
  }

  /** The form handed to the checkout action. */
  function BuildForm(body: Value, h: Headers, c: Codec): (f: FormData)
    ensures FormGet(f, "ipAddress") == Some(Text(ClientIp(h)))
    ensures FormGet(f, "userAgent") == Some(Text(HeaderGet(h, "user-agent").GetOr("unknown")))
    ensures FormGet(f, "sourceCountry") == Some(Text(HeaderGet(h, "x-country").GetOr("unknown")))
    ensures FormGet(f, "items") == Some(Text(c.stringify(Coalesce(Get(body, "items"), Array([])))))
    ensures forall k :: k in CopiedFields && !Nullish(Get(body, k)) ==> FormGet(f, k) == Some(Text(ToStr(Get(body, k))))
    ensures forall k :: k in CopiedFields && Nullish(Get(body, k)) ==> FormGet(f, k).None?
    ensures forall k :: k !in CopiedFields && k !in ServerFields ==> FormGet(f, k).None?
  {
    var copied := CopyFields(body, CopiedFields, map[]);
    CopyFieldsSets(body, CopiedFields, map[]);
    CopiedNotServer();
    WithServerFields(copied, ClientIp(h), HeaderGet(h, "user-agent").GetOr("unknown"),
      HeaderGet(h, "x-country").GetOr("unknown"), c.stringify(Coalesce(Get(body, "items"), Array([]))))
  }

  /** The `error` text of a 400 answer: an `Error`'s own message, or the engine's for its built-in errors. */
  datatype ErrorText = Message(text: string) | EngineMessage

  datatype ResponseBody = Created(receipt: Checkout.Receipt) | Failed(error: ErrorText)

  datatype Response = Response(status: nat, body: ResponseBody)

  /** `error instanceof Error ? error.message : "Failed to create order"`. */
  function ErrorMessage(e: Thrown): (t: ErrorText)
    ensures e.NonError? <==> t == Message("Failed to create order") && !e.Error? && !e.Backend?
    ensures e.Error? ==> t == Message(e.message)
    ensures e.Backend? ==> t == Message(e.message)
  {
    match e
    case Error(m) => Message(m)
    case Backend(m) => Message(m)
    case TypeError => EngineMessage
    case SyntaxError => EngineMessage
    case NonError => Message("Failed to create order")
  }

  /** The state after the request and the answer sent. */
  datatype Reply = Reply(db: Db, response: Response)

  /** The answer to a parsed body: the checkout action runs on the form, and its outcome becomes 201 or 400. */
  function Respond(f: FormData, c: Codec, db: Db, now: nat, draw: nat, createdAt: string, newId: nat -> string)
    : (r: Reply)
    ensures r.response.status == 201 <==> r.response.body.Created?
    ensures r.response.status == 201 || r.response.status == 400
    ensures r.db.products == db.products && r.db.files == db.files
    ensures var o := Checkout.CreateOrder(f, c, db, now, draw, createdAt, newId);
      && r.db == o.db
      && (o.result.Ok? ==> r.response == Response(201, Created(o.result.value)))
      && (o.result.Err? ==> r.response == Response(400, Failed(ErrorMessage(o.result.error))))
  {
    var o := Checkout.CreateOrder(f, c, db, now, draw, createdAt, newId);
    match o.result
    case Ok(receipt) => Reply(o.db, Response(201, Created(receipt)))
    case Err(e) => Reply(o.db, Response(400, Failed(ErrorMessage(e))))
  }

  /**
   * `POST(request)`: an unparseable body is a 400 before anything is written;
   * otherwise the checkout action runs on the built form. The e-mail is sent
   * after a successful order and its outcome is swallowed, so it takes no
   * part here.
   */
  function Post(text: string, h: Headers, c: Codec, db: Db, now: nat, draw: nat, createdAt: string, newId: nat -> string)
    : (r: Reply)
    ensures c.parse(text).None? ==> r == Reply(db, Response(400, Failed(EngineMessage)))
    ensures c.parse(text).Some? ==> r == Respond(BuildForm(c.parse(text).value, h, c), c, db, now, draw, createdAt, newId)
  {
    match c.parse(text)
    case None => Reply(db, Response(400, Failed(ErrorMessage(SyntaxError))))
    case Some(body) => Respond(BuildForm(body, h, c), c, db, now, draw, createdAt, newId)
  }

  /** The client details the action stores come from the headers: a body cannot set them. */
  lemma ClientDetailsFromHeaders(body: Value, h: Headers, c: Codec)
    ensures var cf := Checkout.ReadForm(BuildForm(body, h, c));
      && cf.ipAddress == ClientIp(h)
      && cf.userAgent == HeaderGet(h, "user-agent").GetOr("unknown")
      && cf.sourceCountry == HeaderGet(h, "x-country").GetOr("unknown")
  {
    var f := BuildForm(body, h, c);
    assert FormGet(f, "ipAddress") == Some(Text(ClientIp(h)));
  }

  /** A copied field reaches the action as its string form, trimmed. */
  lemma CopiedFieldReachesAction(body: Value, h: Headers, c: Codec)
    requires !Nullish(Get(body, "fullName"))
    ensures Checkout.ReadForm(BuildForm(body, h, c)).fullName == Trim(ToStr(Get(body, "fullName")))
  {
    assert "fullName" in CopiedFields;
  }

  /** With a lawful JSON, the action parses back exactly the posted `items` after its JSON round trip. */
  lemma ItemsReachAction(body: Value, h: Headers, c: Codec)
    requires Lawful(c)
    ensures c.parse(Checkout.ReadForm(BuildForm(body, h, c)).itemsRaw) == Some(Normalize(Coalesce(Get(body, "items"), Array([]))))
  {
    var items := Coalesce(Get(body, "items"), Array([]));
    assert items != Undefined;
  }

  /** A body without a name gives a form the checkout refuses for its name. */
  lemma NameMissingInForm(body: Value, h: Headers, c: Codec)
    requires Nullish(Get(body, "fullName"))
    ensures Checkout.CheckRequired(Checkout.ReadForm(BuildForm(body, h, c))) == Some(Error("Full name is required"))
  {
    assert "fullName" in CopiedFields;
  }

  /** A form the required-field checks refuse is answered 400 with that check's message, and nothing is written. */
  lemma RefusedBeforeWriting(f: FormData, c: Codec, db: Db, now: nat, draw: nat, createdAt: string, newId: nat -> string, m: string)
    requires Checkout.CheckRequired(Checkout.ReadForm(f)) == Some(Error(m))
    ensures Respond(f, c, db, now, draw, createdAt, newId) == Reply(db, Response(400, Failed(Message(m))))
  {
  }

  /** A body without a name is answered 400 "Full name is required" and nothing is written. */
  lemma MissingNameRejected(text: string, h: Headers, c: Codec, db: Db, now: nat, draw: nat, createdAt: string, newId: nat -> string)
    requires c.parse(text).Some? && Nullish(Get(c.parse(text).value, "fullName"))
    ensures Post(text, h, c, db, now, draw, createdAt, newId) == Reply(db, Response(400, Failed(Message("Full name is required"))))
  {
    var f := BuildForm(c.parse(text).value, h, c);
    NameMissingInForm(c.parse(text).value, h, c);
    RefusedBeforeWriting(f, c, db, now, draw, createdAt, newId, "Full name is required");
  }

  // ---------------------------------------------------------------------
  // The e-mail notification.
  // ---------------------------------------------------------------------

  /** The notification fields the model follows; the item list and the dates are formatted text left out. */
  datatype EmailData = EmailData(
    orderId: string, customerName: Value, customerEmail: Value, customerPhone: Value,
    customerAddress: string, quantity: int, subtotal: Num, total: Num, notes: Value)

  /** `sum + (item.price ?? 0) * (item.quantity ?? 0)` over the priced lines. */
  function SubtotalFrom(acc: real, items: seq<Checkout.OrderLine>): real
    decreases |items|
  {
    if items == [] then acc else SubtotalFrom(acc + Checkout.LineTotal(items[0].price, items[0].quantity), items[1..])
  }

  /** `sum + (item.quantity ?? 0)` over the priced lines. */
  function QuantityFrom(acc: int, items: seq<Checkout.OrderLine>): int
    decreases |items|
  {
    if items == [] then acc else QuantityFrom(acc + items[0].quantity, items[1..])
  }

  /** `value ?? fallback` and `value || fallback` on a body field. */
  function OrElse(v: Value, fallback: string, onFalsy: bool): (r: Value)
    ensures !onFalsy && !Nullish(v) ==> r == v
    ensures onFalsy && Truthy(v) ==> r == v
    ensures (if onFalsy then !Truthy(v) else Nullish(v)) ==> r == Str(fallback)
  {
    if (if onFalsy then Truthy(v) else !Nullish(v)) then v else Str(fallback)
  }

  /**
   * `sendEmailNotification({ ...body, items: result.items })` up to the fetch:
   * numeric `subtotal` and `totalAmount` of the body are taken as they are,
   * otherwise the subtotal is summed from the priced lines and the total
   * falls back to it.
   */
  function Notification(body: Value, items: seq<Checkout.OrderLine>, emailNow: nat): (e: EmailData)
    ensures Get(body, "subtotal").Number? ==> e.subtotal == Get(body, "subtotal").n
    ensures !Get(body, "subtotal").Number? ==> e.subtotal == Finite(SubtotalFrom(0.0, items))
    ensures Get(body, "totalAmount").Number? ==> e.total == Get(body, "totalAmount").n
    ensures !Get(body, "totalAmount").Number? ==> e.total == e.subtotal
    ensures e.customerEmail == OrElse(Get(body, "email"), "Not provided", true)
    ensures e.notes == OrElse(Get(body, "notes"), "No notes", true)
    ensures e.customerPhone == OrElse(Get(body, "phone"), "Not provided", false)
    ensures e.customerName == OrElse(Get(body, "fullName"), "Unknown", false)
    ensures e.quantity == QuantityFrom(0, items)
  {
    var subtotal := if Get(body, "subtotal").Number? then Get(body, "subtotal").n else Finite(SubtotalFrom(0.0, items));
    var total := if Get(body, "totalAmount").Number? then Get(body, "totalAmount").n else subtotal;
    EmailData(
      "ORD-" + NatToString(emailNow),
      OrElse(Get(body, "fullName"), "Unknown", false),
      OrElse(Get(body, "email"), "Not provided", true),
      OrElse(Get(body, "phone"), "Not provided", false),
      ToStr(Coalesce(Get(body, "address"), Str(""))) + ", " + ToStr(Coalesce(Get(body, "city"), Str(""))) + ", "
        + ToStr(Coalesce(Get(body, "postalCode"), Str(""))),
      QuantityFrom(0, items),
      subtotal,
      total,
      OrElse(Get(body, "notes"), "No notes", true))
  }

  /** The summed subtotal is the running total the action computed, shifted by the start value. */
  lemma {:induction false} SubtotalIsTotal(acc: real, items: seq<Checkout.OrderLine>)
    requires forall i :: 0 <= i < |items| ==> items[i].lineTotal == Checkout.LineTotal(items[i].price, items[i].quantity)
    ensures SubtotalFrom(acc, items) == Checkout.TotalFrom(acc, items)
    decreases |items|
  {
    if items != [] {
      SubtotalIsTotal(acc + items[0].lineTotal, items[1..]);
    }
  }

  /** Without client figures the mail reports the order's own total for both subtotal and total. */
  lemma MailMatchesReceipt(body: Value, r: Checkout.Receipt, emailNow: nat)
    requires !Get(body, "subtotal").Number? && !Get(body, "totalAmount").Number?
    requires forall i :: 0 <= i < |r.items| ==> r.items[i].lineTotal == Checkout.LineTotal(r.items[i].price, r.items[i].quantity)
    requires r.totalAmount == Checkout.TotalFrom(0.0, r.items)
    ensures Notification(body, r.items, emailNow).subtotal == Finite(r.totalAmount)
    ensures Notification(body, r.items, emailNow).total == Finite(r.totalAmount)
  {
    SubtotalIsTotal(0.0, r.items);
  }

  /** A numeric subtotal in the body is mailed as is, even when the priced lines add up to something else. */
  lemma ClientSubtotalMailed(body: Value, items: seq<Checkout.OrderLine>, emailNow: nat, s: real)
    requires Get(body, "subtotal") == Real(s) && !Get(body, "totalAmount").Number?
    ensures Notification(body, items, emailNow).total == Finite(s)
  {
  }

  /** Σ quantity over the lines. */
  function QuantitySum(items: seq<Checkout.OrderLine>): int {
    if items == [] then 0 else items[0].quantity + QuantitySum(items[1..])
  }

  /** The running quantity from any start is the start plus Σ quantity. */
  lemma {:induction false} QuantityIsSum(acc: int, items: seq<Checkout.OrderLine>)
    ensures QuantityFrom(acc, items) == acc + QuantitySum(items)
    decreases |items|
  {
    if items != [] {
      QuantityIsSum(acc + items[0].quantity, items[1..]);
    }
  }

  /** The mailed quantity is Σ quantity over the priced lines, whatever the body says. */
  lemma MailedQuantityIsSum(body: Value, items: seq<Checkout.OrderLine>, emailNow: nat)
    ensures Notification(body, items, emailNow).quantity == QuantitySum(items)
  {
    QuantityIsSum(0, items);
  }
}
