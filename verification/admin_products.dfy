/**
 * The admin product actions of src/app/admin/actions.ts: image upload, and
 * the create, update and delete actions over the products collection and
 * the file bucket.
 */
module AdminProducts {
  import opened Wrappers
  import opened JsString
  import opened JsNumber
  import opened JsValue
  import opened Forms
  import opened DocStore
  import LegacyOrder

  /** What the bucket answers when handed a text value instead of a file. */
  const RejectedUpload: string := "storage_invalid_file"

  // ---------------------------------------------------------------------
  // toPrice (the same definition as the legacy order's).
  // ---------------------------------------------------------------------

  /** `Number("-" + d)` for a digit string `d` negates the digits' value. */
  lemma MinusDigits(d: string)
    requires |d| >= 1 && forall i :: 0 <= i < |d| ==> IsDecimalDigit(d[i])
    ensures StringToNumber("-" + d) == Neg(ParseUnsigned(d))
  {
    var t := "-" + d;
    assert !IsSpace(d[|d| - 1]) by { assert IsDecimalDigit(d[|d| - 1]); }
    assert t[|t| - 1] == d[|d| - 1];
    TrimNoSpace(t);
    assert t[0] == '-';
    assert ParseNonDecimal(t) == None;
    assert t[1..] == d;
  }

  /** A negative price is a finite number, so `toPrice` lets it through. */
  lemma NegativePriceAccepted(n: nat)
    ensures LegacyOrder.ToPrice("-" + NatToString(n)) == Ok(-(n as real))
  {
    var d := NatToString(n);
    MinusDigits(d);
    NatRoundTrip(n);
    DigitsNumber(d);
    assert StringToNumber("-" + d) == Finite(-(n as real));
  }

  // ---------------------------------------------------------------------
  // uploadImages.
  // ---------------------------------------------------------------------

  /** `!file || file.size === 0`: an empty text value or an empty file is passed over. */
  predicate Skipped(e: Entry) {
    match e
    case Text(s) => s == ""
    case Upload(size) => size == 0
  }

  /** How many entries are uploaded. */
  function UploadCount(entries: seq<Entry>): (n: nat)
    ensures n <= |entries|
  {
    if entries == [] then 0
    else (if Skipped(entries[0]) then 0 else 1) + UploadCount(entries[1..])
  }

  /** The bucket after the uploads, with the ids or the first failure. */
  datatype Uploaded = Uploaded(files: seq<string>, result: Result<seq<string>, Thrown>)

  /**
   * `uploadImages(files)`: one upload after the other, each under the next
   * fresh id; the first failure aborts the loop and leaves the earlier files
   * in the bucket.
   */
  function UploadImages(entries: seq<Entry>, stored: seq<string>, newId: nat -> string, next: nat): (u: Uploaded)
    ensures |stored| <= |u.files| && u.files[..|stored|] == stored
    ensures u.result.Ok? ==> |u.result.value| == UploadCount(entries)
    ensures u.result.Ok? ==> u.files == stored + u.result.value
    decreases |entries|
  {
    if entries == [] then Uploaded(stored, Ok([]))
    else if Skipped(entries[0]) then UploadImages(entries[1..], stored, newId, next)
    else if entries[0].Text? then Uploaded(stored, Err(Backend(RejectedUpload)))
    else if newId(next) in stored then Uploaded(stored, Err(Backend(AlreadyExists)))
    else
      var rest := UploadImages(entries[1..], stored + [newId(next)], newId, next + 1);
      assert rest.files[..|stored|] == (stored + [newId(next)])[..|stored|];
      match rest.result
      case Err(_) => rest
      case Ok(ids) => Uploaded(rest.files, Ok([newId(next)] + ids))
  }

  /** The uploaded files are named by consecutive fresh ids, in upload order. */
  lemma {:induction false} UploadedIds(entries: seq<Entry>, stored: seq<string>, newId: nat -> string, next: nat)
    ensures var u := UploadImages(entries, stored, newId, next);
      u.result.Ok? ==> forall k: nat :: k < |u.result.value| ==> u.result.value[k] == newId(next + k)
    decreases |entries|
  {
    if entries == [] {
    } else if Skipped(entries[0]) {
      UploadedIds(entries[1..], stored, newId, next);
    } else if !entries[0].Text? && newId(next) !in stored {
      var rest := UploadImages(entries[1..], stored + [newId(next)], newId, next + 1);
      UploadedIds(entries[1..], stored + [newId(next)], newId, next + 1);
      if rest.result.Ok? {
        ConsecutiveIds(rest.result.value, newId, next);
      }
    }
  }

  /** Putting the id drawn at `next` in front of the ids drawn from `next + 1` on gives the ids drawn from `next` on. */
  lemma ConsecutiveIds(ids: seq<string>, newId: nat -> string, next: nat)
    requires forall k: nat :: k < |ids| ==> ids[k] == newId(next + 1 + k)
    ensures forall k: nat :: k < |[newId(next)] + ids| ==> ([newId(next)] + ids)[k] == newId(next + k)
  {
    forall k: nat | k < |[newId(next)] + ids|
      ensures ([newId(next)] + ids)[k] == newId(next + k)
    {
      if k > 0 {
        assert ([newId(next)] + ids)[k] == ids[k - 1];
      }
    }
  }

  /** Only empty entries: nothing reaches the bucket and the id list is empty. */
  lemma {:induction false} NothingToUpload(entries: seq<Entry>, stored: seq<string>, newId: nat -> string, next: nat)
    requires forall i :: 0 <= i < |entries| ==> Skipped(entries[i])
    ensures UploadImages(entries, stored, newId, next) == Uploaded(stored, Ok([]))
    decreases |entries|
  {
    if entries != [] {
      NothingToUpload(entries[1..], stored, newId, next);
    }
  }

  /** Files under fresh, distinct ids all upload. */
  lemma {:induction false} FreshUploadsSucceed(entries: seq<Entry>, stored: seq<string>, newId: nat -> string, next: nat)
    requires forall i :: 0 <= i < |entries| ==> entries[i].Upload?
    requires forall k: nat :: next <= k < next + |entries| ==> newId(k) !in stored
    requires forall k: nat, l: nat :: next <= k < l < next + |entries| ==> newId(k) != newId(l)
    ensures UploadImages(entries, stored, newId, next).result.Ok?
    decreases |entries|
  {
    if entries != [] {
      var rest := entries[1..];
      if Skipped(entries[0]) {
        FreshUploadsSucceed(rest, stored, newId, next);
      } else {
        var stored' := stored + [newId(next)];
        forall k: nat | next + 1 <= k < next + 1 + |rest|
          ensures newId(k) !in stored'
        {
          assert newId(k) != newId(next);
        }
        FreshUploadsSucceed(rest, stored', newId, next + 1);
      }
    }
  }

  // ---------------------------------------------------------------------
  // createProductAction.
  // ---------------------------------------------------------------------

  /** The text fields both editing actions read, trimmed. */
  datatype ProductForm = ProductForm(title: string, priceRaw: string, description: string)

  function ReadProductForm(f: FormData): (pf: ProductForm)
    ensures pf.title == TrimmedField(f, "title") && pf.priceRaw == TrimmedField(f, "price")
    ensures pf.description == TrimmedField(f, "description")
  {
    ProductForm(TrimmedField(f, "title"), TrimmedField(f, "price"), TrimmedField(f, "description"))
  }

  /** The checks of `createProductAction`, in order, all before any upload. */
  function CheckCreate(pf: ProductForm, entries: seq<Entry>): (r: Result<real, Thrown>)
    ensures pf.title == "" ==> r == Err(Error("Title is required"))
    ensures pf.title != "" && pf.priceRaw == "" ==> r == Err(Error("Price is required"))
    ensures pf.title != "" && pf.priceRaw != "" && LegacyOrder.ToPrice(pf.priceRaw).Err? ==>
      r == Err(Error("Price must be a valid number"))
    ensures pf.title != "" && pf.priceRaw != "" && LegacyOrder.ToPrice(pf.priceRaw).Ok? && entries == [] ==>
      r == Err(Error("Upload at least 1 image"))
    ensures r.Ok? <==> pf.title != "" && pf.priceRaw != "" && LegacyOrder.ToPrice(pf.priceRaw).Ok? && entries != []
    ensures r.Ok? ==> r.value == LegacyOrder.ToPrice(pf.priceRaw).value
  {
    if pf.title == "" then Err(Error("Title is required"))
    else if pf.priceRaw == "" then Err(Error("Price is required"))
    else
      var price :- LegacyOrder.ToPrice(pf.priceRaw);
      if entries == [] then Err(Error("Upload at least 1 image")) else Ok(price)
  }

  /** `description || undefined`: an empty description is not sent. */
  function OptionalText(s: string): (v: Value)
    ensures v == Undefined <==> s == ""
  {
    if s == "" then Undefined else Str(s)
  }

  /** The ids as the JSON array the document stores. */
  function IdValues(ids: seq<string>): (vs: seq<Value>)
    ensures |vs| == |ids|
    ensures forall i :: 0 <= i < |ids| ==> vs[i] == Str(ids[i])
  {
    seq(|ids|, i requires 0 <= i < |ids| => Str(ids[i]))
  }

  /** The attributes `createProductAction` writes. */
  function ProductAttrs(pf: ProductForm, price: real, images: seq<Value>): map<string, Value> {
    map["title" := Str(pf.title), "price" := Real(price), "description" := OptionalText(pf.description),
        "imageFileIds" := Array(images)]
  }

  /** The uploads and the document write once the checks passed; the document id is drawn after the file ids. */
  function WriteProduct(db: Db, pf: ProductForm, price: real, entries: seq<Entry>, newId: nat -> string, createdAt: string)
    : (o: Outcome<string>)
    ensures o.db.orders == db.orders && o.db.orderItems == db.orderItems
    ensures |db.files| <= |o.db.files| && o.db.files[..|db.files|] == db.files
    ensures o.result.Ok? ==>
      var ids := o.db.files[|db.files|..];
      && |ids| == UploadCount(entries)
      && o.result.value == newId(|ids|)
      && o.db.products == db.products + [Doc(newId(|ids|), createdAt, Sent(ProductAttrs(pf, price, IdValues(ids))))]
  {
    var u := UploadImages(entries, db.files, newId, 0);
    match u.result
    case Err(e) => Outcome(db.(files := u.files), Err(e))
    case Ok(ids) =>
      assert u.files[|db.files|..] == ids;
      var id := newId(|ids|);
      match Create(db.products, id, createdAt, ProductAttrs(pf, price, IdValues(ids)))
      case Err(e) => Outcome(db.(files := u.files), Err(e))
      case Ok(products) => Outcome(db.(files := u.files, products := products), Ok(id))
  }

  /** `createProductAction(formData)`. */
  function CreateProduct(f: FormData, db: Db, newId: nat -> string, createdAt: string): (o: Outcome<string>)
    ensures o.db.orders == db.orders && o.db.orderItems == db.orderItems
    ensures CheckCreate(ReadProductForm(f), FormGetAll(f, "images")).Err? ==>
      o == Outcome(db, Err(CheckCreate(ReadProductForm(f), FormGetAll(f, "images")).error))
    ensures CheckCreate(ReadProductForm(f), FormGetAll(f, "images")).Ok? ==>
      o == WriteProduct(db, ReadProductForm(f), CheckCreate(ReadProductForm(f), FormGetAll(f, "images")).value,
                        FormGetAll(f, "images"), newId, createdAt)
  {
    var pf := ReadProductForm(f);
    var entries := FormGetAll(f, "images");
    match CheckCreate(pf, entries)
    case Err(e) => Outcome(db, Err(e))
    case Ok(price) => WriteProduct(db, pf, price, entries, newId, createdAt)
  }

  /** Writing with only empty image entries stores the product with an empty image list. */
  lemma WriteWithoutImages(db: Db, pf: ProductForm, price: real, entries: seq<Entry>, newId: nat -> string, createdAt: string)
    requires forall i :: 0 <= i < |entries| ==> Skipped(entries[i])
    requires newId(0) !in Ids(db.products)
    ensures var o := WriteProduct(db, pf, price, entries, newId, createdAt);
      && o.result == Ok(newId(0))
      && o.db.files == db.files
      && o.db.products == db.products + [Doc(newId(0), createdAt, Sent(ProductAttrs(pf, price, [])))]
  {
    NothingToUpload(entries, db.files, newId, 0);
    assert IdValues([]) == [];
  }

  /** The stored image list of such a product is the empty array. */
  lemma NoImageIds(pf: ProductForm, price: real)
    ensures "imageFileIds" in Sent(ProductAttrs(pf, price, []))
    ensures Sent(ProductAttrs(pf, price, []))["imageFileIds"] == Array([])
  {
    assert ProductAttrs(pf, price, [])["imageFileIds"] == Array([]);
    assert Normalize(Array([])) == Array([]);
  }

  /**
   * The image check counts form entries, not files: a form whose only image
   * entry is an empty file passes it, and the product is created without
   * any image.
   */
  lemma ImagelessProductCreated(f: FormData, db: Db, newId: nat -> string, createdAt: string)
    requires CheckCreate(ReadProductForm(f), FormGetAll(f, "images")).Ok?
    requires forall i :: 0 <= i < |FormGetAll(f, "images")| ==> Skipped(FormGetAll(f, "images")[i])
    requires newId(0) !in Ids(db.products)
    ensures var o := CreateProduct(f, db, newId, createdAt);
      && o.result == Ok(newId(0))
      && o.db.files == db.files
      && |o.db.products| == |db.products| + 1
      && "imageFileIds" in o.db.products[|db.products|].attrs
      && o.db.products[|db.products|].attrs["imageFileIds"] == Array([])
  {
    var pf := ReadProductForm(f);
    var entries := FormGetAll(f, "images");
    var price := CheckCreate(pf, entries).value;
    var o := CreateProduct(f, db, newId, createdAt);
    assert o == WriteProduct(db, pf, price, entries, newId, createdAt);
    WriteWithoutImages(db, pf, price, entries, newId, createdAt);
    var doc := Doc(newId(0), createdAt, Sent(ProductAttrs(pf, price, [])));
    assert o.db.products == db.products + [doc];
    assert o.db.products[|db.products|] == doc;
    NoImageIds(pf, price);
    assert doc.attrs["imageFileIds"] == Array([]);
  }

  /** The image check as intended: it is made on the uploaded files, so no product is stored without an image. */
  function CreateProductChecked(f: FormData, db: Db, newId: nat -> string, createdAt: string): (o: Outcome<string>)
    ensures o.db.orders == db.orders && o.db.orderItems == db.orderItems
    ensures CheckCreate(ReadProductForm(f), FormGetAll(f, "images")).Err? ==>
      o == Outcome(db, Err(CheckCreate(ReadProductForm(f), FormGetAll(f, "images")).error))
    ensures UploadCount(FormGetAll(f, "images")) == 0 ==> o.db.products == db.products && o.result.Err?
    ensures o.result.Ok? ==> |o.db.files| > |db.files|
  {
    var pf := ReadProductForm(f);
    var entries := FormGetAll(f, "images");
    match CheckCreate(pf, entries)
    case Err(e) => Outcome(db, Err(e))
    case Ok(price) =>
      if UploadCount(entries) == 0 then Outcome(db, Err(Error("Upload at least 1 image")))
      else WriteProduct(db, pf, price, entries, newId, createdAt)
  }

  /** The stored image list is the uploaded ids, in upload order. */
  lemma ImagesStored(pf: ProductForm, price: real, ids: seq<string>)
    ensures "imageFileIds" in Sent(ProductAttrs(pf, price, IdValues(ids)))
    ensures Sent(ProductAttrs(pf, price, IdValues(ids)))["imageFileIds"] == Array(IdValues(ids))
  {
    var vs := IdValues(ids);
    assert ProductAttrs(pf, price, vs)["imageFileIds"] == Array(vs);
    var n := Normalize(Array(vs));
    assert n.elems == vs by {
      forall i | 0 <= i < |vs|
        ensures n.elems[i] == vs[i]
      {
        assert vs[i] == Str(ids[i]);
        assert n.elems[i] == Normalize(vs[i]);
      }
    }
  }

  /** Every product the corrected action stores has at least one image. */
  lemma CheckedProductHasImages(f: FormData, db: Db, newId: nat -> string, createdAt: string)
    requires CreateProductChecked(f, db, newId, createdAt).result.Ok?
    ensures var ps := CreateProductChecked(f, db, newId, createdAt).db.products;
      && |ps| == |db.products| + 1
      && "imageFileIds" in ps[|db.products|].attrs
      && ps[|db.products|].attrs["imageFileIds"].Array?
      && |ps[|db.products|].attrs["imageFileIds"].elems| > 0
  {
    var pf := ReadProductForm(f);
    var entries := FormGetAll(f, "images");
    var price := CheckCreate(pf, entries).value;
    var o := WriteProduct(db, pf, price, entries, newId, createdAt);
    assert CreateProductChecked(f, db, newId, createdAt) == o;
    var ids := o.db.files[|db.files|..];
    ImagesStored(pf, price, ids);
  }

  // ---------------------------------------------------------------------
  // updateProductAction.
  // ---------------------------------------------------------------------

  /** `JSON.parse(raw)` kept only when it is an array; a parse failure or any other value gives []. */
  function ParseIdList(c: Codec, raw: string): (vs: seq<Value>)
    ensures c.parse(raw).None? ==> vs == []
    ensures c.parse(raw).Some? && !c.parse(raw).value.Array? ==> vs == []
    ensures c.parse(raw).Some? && c.parse(raw).value.Array? ==> vs == c.parse(raw).value.elems
  {
    match c.parse(raw)
    case Some(Array(a)) => a
    case _ => []
  }

  /** `mode === "replace" ? newImageIds : [...existingImageIds, ...newImageIds]`. */
  function FinalImages(mode: string, existing: seq<Value>, added: seq<string>): (vs: seq<Value>)
    ensures mode == "replace" ==> vs == IdValues(added)
    ensures mode != "replace" ==> |vs| == |existing| + |added| && vs[..|existing|] == existing && vs[|existing|..] == IdValues(added)
  {
    if mode == "replace" then IdValues(added) else existing + IdValues(added)
  }

  /** The attributes `updateProductAction` patches. */
  function PatchAttrs(pf: ProductForm, price: real, images: seq<Value>): map<string, Value> {
    map["title" := Str(pf.title), "price" := Real(price), "description" := OptionalText(pf.description),
        "imageFileIds" := Array(images)]
  }

  /** The uploads of `updateProductAction`, made only when the form holds image entries. */
  function UploadForUpdate(entries: seq<Entry>, files: seq<string>, newId: nat -> string): (u: Uploaded)
    ensures |files| <= |u.files| && u.files[..|files|] == files
    ensures entries == [] ==> u == Uploaded(files, Ok([]))
    ensures entries != [] ==> u == UploadImages(entries, files, newId, 0)
  {
    if |entries| > 0 then UploadImages(entries, files, newId, 0) else Uploaded(files, Ok([]))
  }

  /** The price check and `updateDocument`, once the images are settled. */
  function ApplyPatch(db: Db, productId: string, pf: ProductForm, images: seq<Value>): (o: Outcome<string>)
    ensures o.db.orders == db.orders && o.db.orderItems == db.orderItems && o.db.files == db.files
    ensures o.result.Err? ==> o.db == db
    ensures LegacyOrder.ToPrice(pf.priceRaw).Err? ==> o.result == Err(Error("Price must be a valid number"))
    ensures LegacyOrder.ToPrice(pf.priceRaw).Ok? ==> (o.result.Ok? <==> productId in Ids(db.products))
    ensures o.result.Ok? ==> o.result.value == productId
    ensures o.result.Ok? ==> |o.db.products| == |db.products|
    ensures o.result.Ok? ==> forall i :: 0 <= i < |db.products| && db.products[i].id != productId ==>
      o.db.products[i] == db.products[i]
    ensures o.result.Ok? ==> forall i :: 0 <= i < |db.products| && db.products[i].id == productId ==>
      o.db.products[i].attrs == db.products[i].attrs + Sent(PatchAttrs(pf, LegacyOrder.ToPrice(pf.priceRaw).value, images))
  {
    match LegacyOrder.ToPrice(pf.priceRaw)
    case Err(e) => Outcome(db, Err(e))
    case Ok(price) =>
      match Update(db.products, productId, PatchAttrs(pf, price, images))
      case Err(e) => Outcome(db, Err(e))
      case Ok(products) => Outcome(db.(products := products), Ok(productId))
  }

  /** `updateProductAction(formData)`: images are uploaded before the price is checked. */
  function UpdateProduct(f: FormData, c: Codec, db: Db, newId: nat -> string): (o: Outcome<string>)
    ensures o.db.orders == db.orders && o.db.orderItems == db.orderItems
    ensures TrimmedField(f, "productId") == "" ==> o == Outcome(db, Err(Error("Missing productId")))
    ensures |db.files| <= |o.db.files| && o.db.files[..|db.files|] == db.files
    ensures o.result.Ok? ==> o.result.value == TrimmedField(f, "productId")
    ensures o.db.products != db.products ==> o.result.Ok?
    ensures TrimmedField(f, "productId") != "" ==>
      var u := UploadForUpdate(FormGetAll(f, "images"), db.files, newId);
      && (u.result.Err? ==> o == Outcome(db.(files := u.files), Err(u.result.error)))
      && (u.result.Ok? ==> o == ApplyPatch(db.(files := u.files), TrimmedField(f, "productId"), ReadProductForm(f),
            FinalImages(FieldOr(f, "imageMode", "append"), ParseIdList(c, FieldOr(f, "existingImageIds", "[]")), u.result.value)))
  {
    var productId := TrimmedField(f, "productId");
    if productId == "" then Outcome(db, Err(Error("Missing productId")))
    else
      var u := UploadForUpdate(FormGetAll(f, "images"), db.files, newId);
      match u.result
      case Err(e) => Outcome(db.(files := u.files), Err(e))
      case Ok(added) =>
        var mode := FieldOr(f, "imageMode", "append");
        var existing := ParseIdList(c, FieldOr(f, "existingImageIds", "[]"));
        ApplyPatch(db.(files := u.files), productId, ReadProductForm(f), FinalImages(mode, existing, added))
  }

  /** An empty price is `Number("")`, which is 0: the update goes through with price 0. */
  lemma EmptyPriceIsZero()
    ensures LegacyOrder.ToPrice("") == Ok(0.0)
  {
    assert Trim("") == "";
  }

  /** A bad price is found only after the uploads: the new files stay in the bucket although the update fails. */
  lemma BadPriceAfterUpload(f: FormData, c: Codec, db: Db, newId: nat -> string)
    requires TrimmedField(f, "productId") != ""
    requires LegacyOrder.ToPrice(TrimmedField(f, "price")).Err?
    requires FormGetAll(f, "images") != []
    requires UploadImages(FormGetAll(f, "images"), db.files, newId, 0).result.Ok?
    ensures var o := UpdateProduct(f, c, db, newId);
      && o.result == Err(Error("Price must be a valid number"))
      && o.db.files == db.files + UploadImages(FormGetAll(f, "images"), db.files, newId, 0).result.value
      && o.db.products == db.products
  {
  }

  /** Clearing the description does not clear it: the empty value is not sent, so the stored one stays. */
  lemma ClearedDescriptionKept(pf: ProductForm, price: real, images: seq<Value>, stored: map<string, Value>)
    requires pf.description == "" && "description" in stored
    ensures var m := stored + Sent(PatchAttrs(pf, price, images));
      "description" in m && m["description"] == stored["description"]
  {
  }

  // ---------------------------------------------------------------------
  // deleteProductAction.
  // ---------------------------------------------------------------------

  /** `Promise.allSettled` over `deleteFile`: each id that names a stored file removes it, every failure is ignored. */
  function DeleteFilesSettled(files: seq<string>, ids: seq<Value>): (r: seq<string>)
    ensures forall x :: x in r <==> x in files && Str(x) !in ids
    ensures |r| <= |files|
  {
    if files == [] then []
    else if Str(files[0]) in ids then DeleteFilesSettled(files[1..], ids)
    else [files[0]] + DeleteFilesSettled(files[1..], ids)
  }

  /** `deleteProductAction(formData)`: the document first, then the files when asked. */
  function DeleteProduct(f: FormData, c: Codec, db: Db): (o: Outcome<()>)
    ensures o.db.orders == db.orders && o.db.orderItems == db.orderItems
    ensures TrimmedField(f, "productId") == "" ==> o == Outcome(db, Err(Error("Missing productId")))
    ensures o.result.Err? ==> o.db == db
    ensures o.result.Ok? ==> forall d :: d in o.db.products <==> d in db.products && d.id != TrimmedField(f, "productId")
    ensures FieldOr(f, "deleteImages", "no") != "yes" ==> o.db.files == db.files
    ensures o.result.Ok? && FieldOr(f, "deleteImages", "no") == "yes" ==>
      forall x :: x in o.db.files <==> x in db.files && Str(x) !in ParseIdList(c, FieldOr(f, "imageIds", "[]"))
  {
    var productId := TrimmedField(f, "productId");
    var deleteImages := FieldOr(f, "deleteImages", "no") == "yes";
    var imageIds := ParseIdList(c, FieldOr(f, "imageIds", "[]"));
    if productId == "" then Outcome(db, Err(Error("Missing productId")))
    else
      match Delete(db.products, productId)
      case Err(e) => Outcome(db, Err(e))
      case Ok(products) =>
        var files := if deleteImages && |imageIds| > 0 then DeleteFilesSettled(db.files, imageIds) else db.files;
        Outcome(db.(products := products, files := files), Ok(()))
  }

  /** Deleting an unknown product fails before any file is touched, even when the files were to go too. */
  lemma UnknownProductKeepsFiles(f: FormData, c: Codec, db: Db)
    requires TrimmedField(f, "productId") != "" && TrimmedField(f, "productId") !in Ids(db.products)
    ensures DeleteProduct(f, c, db) == Outcome(db, Err(Backend(NotFound)))
  {
  }
}
