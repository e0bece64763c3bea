# shophub core in Dafny

A functional model of the decision logic of the shophub storefront: a
Next.js shop whose products, orders and order items live in an Appwrite
database and whose product images live in an Appwrite storage bucket, and
whose shopping cart lives in the browser's `localStorage`.

The model covers:

- **Checkout** (`createOrder` of `src/actions/site/checkout.ts`):
  - trimmed required fields, checked in a fixed order;
  - lenient cart parsing with floored quantities;
  - merging of repeated product ids;
  - a check against the product catalogue (missing, switched-off and badly priced products);
  - server-side pricing;
  - the header written before the items.
- **Legacy order creation** (`src/lib/order.ts`):
  - it trusts a positive client total;
  - one bad price empties the cart;
  - it has no empty-cart check.
- **The HTTP order endpoint** (`src/app/api/orders/route.ts`):
  - the copied field whitelist;
  - request-header provenance;
  - the 201/400 mapping;
  - the e-mail payload fields.
- **Admin order actions** (`src/actions/admin/orders.ts`):
  - listing;
  - the item lookup with one retry;
  - status overwrite;
  - cascade delete;
  - statistics.
- **Admin product actions** (`src/app/admin/actions.ts`):
  - price parsing;
  - image upload filtering;
  - validation order;
  - append/replace image merge;
  - delete with tolerant file clean-up.
- **The browser cart**:
  - `CartStorage`;
  - the product card's add-or-increment;
  - the cart sidebar (load, totals, remove, increment/decrement);
  - the three cart counters (two header badges and `cart.store`).
- **Paths and URLs**:
  - locale prefix rewriting;
  - `urlFormat`;
  - the admin gate of the middleware;
  - the Appwrite base URL and image URL builders, and the request result mapping.
- **Small index state machines**: pagination and the two image galleries. The pager takes the current page as any JavaScript number. `Pagination.CurrentPage` is the shop page's `Number(page) || 1` (src/app/[locale]/(site)/shop/page.tsx:26): it is never NaN or 0, and `Pagination.CurrentPageReadsNumber` proves that a decimal page number reads back as itself.

## How the model is built

- **JavaScript values.** `JsValue.Value` is undefined, null, boolean, number, string, array or object. `JsNumber.Num` is a finite `real`, NaN or ±Infinity. These modules define:
  - `Number(...)` on strings (decimal, `0x`/`0o`/`0b`, `Infinity`, surrounding whitespace);
  - `String(...)` on numbers;
  - `+` with string concatenation;
  - `??`, `||` and truthiness;
  - property access.
- **JSON.** `JSON.parse`/`JSON.stringify` form a `Codec` parameter. `JsValue.Lawful` states the laws the code relies on:
  - `parse(stringify(v))` is `v` with `undefined` properties dropped and non-finite numbers turned into `null`;
  - `parse("")` fails;
  - parsed values are JSON-shaped.
- **Money** is exact `real` arithmetic.
- **Backend.** The database is `DocStore.Db`: three collections as sequences of documents in storage order, plus the list of stored file ids. `createDocument` refuses an id already present. `getDocument`, `updateDocument` and `deleteDocument` on a missing id fail with the not-found error. `listDocuments` applies equality filters, newest-first ordering and the page limit; without a `Query.limit` the page is the backend's default of 25.
- **Parameters.**
  - `ID.unique()` is a function `newId: nat -> string` indexed by call order.
  - `Date.now()`, `Math.random()`, the creation timestamp and "today" are parameters.
  - The `localStorage` key order is a parameter `keys` listing every key once.
  - The absence of `window` is `None`.
  - Failures of the retried item lookup are a list of thrown values.
- **Forms and headers.** `FormData` maps a name to its entries, each a text value or an uploaded file of some size. Headers map lower-case names to values.
- **Behaviour worth noting:**
  - Lowering a quantity does not remove the cart line (`CartSidebar.NoLowerBound`).
  - Admin prices may be negative (`AdminProducts.NegativePriceAccepted`).
  - The legacy order path and the e-mail use client totals.
  - Order deletion handles only the first page of items (see Findings).

## Model

| member | source | states |
|---|---|---|
| I18n.Dir | i18n.config.ts:4 | the direction is "rtl" exactly for "ar" and "ltr" for every other string |
| I18n.LocalesAreEnArFr | i18n.config.ts:2-3 | the known locales are exactly en, ar and fr; each is a non-empty segment without "/" |
| LocalePath.Segments | src/lib/locale-path.ts:9 | `split("/").filter(Boolean)` yields only non-empty segments without "/" |
| LocalePath.IsLocaleSegment | src/lib/locale-path.ts:4-6 | a segment is a locale iff it is "en", "ar" or "fr" |
| LocalePath.WithLocalePath | src/lib/locale-path.ts:8-18 | the result starts with "/", splits into "" plus its segments, and its first segment is the locale; the segments are the input's with the first replaced when it is a locale, else with the locale prepended |
| LocalePath.SlashJoin | src/lib/locale-path.ts:17 | joining non-empty segments behind "/" and splitting again gives the segments back |
| LocalePath.ReplacesLocaleSegment | src/lib/locale-path.ts:11-12 | a leading locale segment is replaced and the other segments are kept in order |
| LocalePath.PrependsLocale | src/lib/locale-path.ts:13-14 | without a leading locale the locale is prepended and all segments are kept |
| LocalePath.SwitchComposes | src/lib/locale-path.ts:8-18 | localising to a and then to b equals localising to b |
| LocalePath.Idempotent | src/lib/locale-path.ts:8-18 | localising twice to the same locale changes nothing |
| LocalePath.RootBecomesLocale | src/lib/locale-path.ts:9-17 | "/" and "" both become "/" + locale |
| LangSwitcher.ReplaceLocaleInPath | src/components/LangSwitcher.tsx:20-30 | the hand-written en/fr/ar test makes the switcher's rewrite equal `withLocalePath` for every path and locale |
| LangSwitcher.AgreesWithLocalePath | src/components/LangSwitcher.tsx:20-30 | `replaceLocaleInPath` equals `withLocalePath` for every path and locale, and its first segment is the new locale |
| LangSwitcher.Find | src/components/LangSwitcher.tsx:44 | `LANGS.find` returns a listed language with that locale, or nothing when none matches |
| LangSwitcher.Current | src/components/LangSwitcher.tsx:43-46 | the current language is the listed one for the locale, else the first entry |
| LangSwitcher.CurrentPathname | src/components/LangSwitcher.tsx:37 | the path is never empty: the router's path when it has a non-empty one, otherwise "/" |
| LangSwitcher.ChangeLanguage | src/components/LangSwitcher.tsx:37-53 | no navigation iff the locale is unchanged; otherwise the pushed path is the relocalised current path (the relocalised "/" when the router has no path), whose first segment is the new locale |
| UrlFormat.UrlFormat | src/lib/url-format.ts:1-8 | the parts of the result are the input's parts with index 3 removed when there are more than 3; with at most 3 parts the URL is unchanged, otherwise it gets shorter |
| UrlFormat.JoinLength | src/lib/url-format.ts:5-7 | removing one part shortens the joined text by that part and one separator |
| UrlFormat.KeepsSchemeHostAndTail | src/lib/url-format.ts:3-7 | parts 0-2 and every part after index 3 are kept in order |
| UrlFormat.NotIdempotent | src/lib/url-format.ts:4-6 | applying it twice drops parts 3 and 4 and differs from applying it once |
| UrlFormat.RemovesLocaleSegment | src/lib/url-format.ts:1-8 | on `scheme//host/segment/path` with no "/" inside the parts, the segment after the host is dropped and everything else is kept |
| Middleware.Gate | src/middleware.ts:4-17 | paths outside "/admin" pass; "/admin" paths pass iff the admin token is set, non-empty and equal to the `token` query value |
| Middleware.NoTokenRefusesAdmin | src/middleware.ts:11-12 | without an admin token every "/admin" path gets 401 |
| Middleware.PrefixGatesLongerNames | src/middleware.ts:7-12 | the middleware function on its own refuses, without a token, every path that begins with "/admin", "/administrator" included; which paths reach it is decided by the route matcher, which is left out |
| AppwriteUrls.GetBaseUrl | src/lib/appwrite/client.ts:92-94 | an undefined endpoint gives ""; one trailing "/" is removed; an endpoint without one is kept |
| AppwriteUrls.RemovesOnlyOneSlash | src/lib/appwrite/client.ts:93 | "https://x//" becomes "https://x/" |
| AppwriteUrls.ServerImageUrl | src/lib/appwrite/client.ts:15-23 | fails with the env-vars message iff endpoint, project or bucket is missing; otherwise it is the view URL on the normalised base |
| AppwriteUrls.ClientImageUrl | src/lib/appwrite-client-urls.ts:1-12 | fails iff a setting is missing; otherwise the URL is the view URL built on the endpoint used verbatim, with the bucket, the file id and the project |
| AppwriteUrls.ViewUrlInjective | src/lib/appwrite-client-urls.ts:11 | for a fixed configuration, distinct file ids give distinct URLs |
| AppwriteUrls.BuildersAgreeIffNoTrailingSlash | src/lib/appwrite/client.ts:22 | the two URL builders agree iff the endpoint has no trailing "/" |
| AppwriteUrls.RequestOutcome | src/lib/appwrite/client.ts:61-89 | missing settings throw the settings error; a non-ok status throws an Error; status 204 gives null; any other 2xx gives the parsed body, or a SyntaxError when the body is not JSON; only a configured 2xx succeeds |
| AppwriteUrls.FailureUsesPayloadMessage | src/lib/appwrite/client.ts:76-84 | a failed response whose parsed payload has a truthy `message`, whatever its other fields, throws the string form of that message |
| AppwriteUrls.FailureDefaultMessage | src/lib/appwrite/client.ts:76-84 | a failed response whose body is not JSON, or whose payload has no truthy `message` (`{}` included), throws "Appwrite request failed (status)" |
| Pagination.PageNumbers | src/components/ui/Pagination.tsx:25-40 | for any current page (a JavaScript number, fractions and infinities included) the list has at most 7 entries, is empty iff there are no pages, otherwise starts at page 1 and ends at the last page, and beyond 7 pages holds a "..." marker |
| Pagination.Navigation | src/components/ui/Pagination.tsx:44-87 | for any current page the links target current − 1 and current + 1 (an infinite page links to itself); previous is disabled iff the current page is exactly 1, next iff it is exactly the page count |
| Pagination.Range | src/components/ui/Pagination.tsx:30 | the loop yields pages 1..n in order, and nothing for n <= 0 |
| Pagination.ShortListIsEveryPage | src/components/ui/Pagination.tsx:27-30 | with at most 7 pages the list is exactly 1..total |
| Pagination.LongListShape | src/components/ui/Pagination.tsx:31-37 | with more than 7 pages, for any current page that is not NaN, there are at most 7 entries, the first is 1, the last is total, and the numbers strictly increase |
| Pagination.CurrentIsListed | src/components/ui/Pagination.tsx:29-37 | a whole current page in 1..total appears in the list |
| Pagination.EnabledLinksStayInRange | src/components/ui/Pagination.tsx:44-87 | on a whole page in 1..total, prev is disabled iff the page is 1, next iff it is total; an enabled link targets the neighbouring page, which lies in 1..total |
| Pagination.FractionalPageUnlisted | src/components/ui/Pagination.tsx:31-32 | page 2.5 of 10 is not in the list, so no entry is marked as the current page |
| Pagination.FractionalPageLeavesRange | src/components/ui/Pagination.tsx:44-52 | on page 1.5 "previous" is enabled and links to page 0.5 |
| Pagination.NextEnabledPastTheEnd | src/components/ui/Pagination.tsx:81-84 | past the last page "next" stays enabled and links further out |
| Gallery.Next | src/components/ImageGalleryZoom.tsx:40-42 | `(i+1) % n` stays in [0,n), steps forward, and wraps from n-1 to 0 |
| Gallery.Prev | src/components/ImageGalleryZoom.tsx:37-39 | `(i-1+n) % n` stays in [0,n), steps back, and wraps from 0 to n-1 |
| Gallery.PrevNextInverse | src/components/product/ImageGalleryZoom.tsx:53-59 | prev after next and next after prev are the identity on [0,n) |
| Gallery.NextTimes | src/components/ImageGalleryZoom.tsx:40-42 | repeated `next` stays in [0,n) |
| Gallery.NextTimesWraps | src/components/ImageGalleryZoom.tsx:40-42 | k <= n steps forward land on i+k, wrapped once past n |
| Gallery.FullCycle | src/components/ImageGalleryZoom.tsx:40-42 | n steps of `next` return to the start |
| Gallery.Clamp | src/components/ImageGalleryZoom.tsx:32-33 | `max(0, min(100, x))` lies in [0,100], keeps values already there, and keeps NaN |
| Gallery.ClampedPosition | src/components/ImageGalleryZoom.tsx:27-33 | over a box of positive size the old gallery's zoom position lies in [0,100] |
| Gallery.ProductPositionUnclamped | src/components/product/ImageGalleryZoom.tsx:26-30 | the product gallery reports 150% where the old gallery clamps to 100% |
| Gallery.OldGalleryView | src/components/ImageGalleryZoom.tsx:44-64 | an empty list shows "No images"; otherwise the counter shows active+1 of n |
| Gallery.ProductGalleryView | src/components/product/ImageGalleryZoom.tsx:61-102 | an empty list renders nothing; arrows appear iff there is more than one image |
| Gallery.ToggleMobileZoom | src/components/product/ImageGalleryZoom.tsx:49-51 | toggling always changes the mobile zoom flag |
| Gallery.ToggleTwice | src/components/product/ImageGalleryZoom.tsx:49-51 | toggling the mobile zoom twice restores the flag |
| LocalStorage.CartKey | src/lib/cart-storage.ts:52 | `cart_item_<id>` starts with the cart prefix followed by the id |
| LocalStorage.SeenKey | src/components/product/ProductCard.tsx:63 | a `seen_product_` key is never a cart key |
| LocalStorage.CartKeyInjective | src/lib/cart-storage.ts:52 | two ids share a cart key iff they are equal |
| LocalStorage.CartKeys | src/lib/cart-storage.ts:76 | the key filter keeps exactly the keys with the cart prefix |
| LocalStorage.CartPart | src/lib/cart-storage.ts:11 | the cart part of storage holds exactly the cart keys with their values |
| CartStorage.Fields | src/lib/cart-storage.ts:21-27 | the title, price and quantity default to "", 0 and 1 when absent and are read as given when present |
| CartStorage.ReadEntry | src/lib/cart-storage.ts:14-43 | unparsable text gives nothing; a string productId is used; otherwise a string `$id` is used with no image |
| CartStorage.Entries | src/lib/cart-storage.ts:9-45 | at most one item per key |
| CartStorage.GetAll | src/lib/cart-storage.ts:5-6 | no window gives [] |
| CartStorage.EntriesReadOnlyCartKeys | src/lib/cart-storage.ts:11 | `getAll` depends only on the cart keys and their values |
| CartStorage.EntriesComeFromCartKeys | src/lib/cart-storage.ts:11-43 | every item is read from some present cart key |
| CartStorage.Add | src/lib/cart-storage.ts:49-54 | `add` writes only the item's cart key, with the item's JSON |
| CartStorage.Stored | src/lib/cart-storage.ts:52 | an item with finite price and quantity survives the JSON text unchanged |
| CartStorage.NormalizeItemValue | src/lib/cart-storage.ts:52 | the stored record is the item's fields with non-finite numbers turned into null |
| CartStorage.AddRoundTrip | src/lib/cart-storage.ts:49-54 | reading back an added item gives the item as JSON stores it |
| CartStorage.AddThenRead | src/lib/cart-storage.ts:20-28 | with finite numbers, `add` then read gives the item itself |
| CartStorage.AddOverwrites | src/lib/cart-storage.ts:52 | a second `add` for the same product replaces the first; quantities are not merged |
| CartStorage.AssignQuantity | src/lib/cart-storage.ts:61-62 | assigning `quantity` succeeds iff the value is an object or array, and on an object sets only that property |
| CartStorage.Update | src/lib/cart-storage.ts:56-66 | no window or no entry is a no-op; unparsable text throws; on success the key set is unchanged and every other key keeps its value |
| CartStorage.UpdateChangesOnlyQuantity | src/lib/cart-storage.ts:56-66 | updating a readable entry changes only its quantity |
| CartStorage.ReadAfterQuantityChange | src/lib/cart-storage.ts:20-28 | reading an object after a quantity change gives the old fields with the new quantity |
| CartStorage.Remove | src/lib/cart-storage.ts:68-72 | `remove` deletes exactly `cart_item_<id>` and keeps every other value |
| CartStorage.RemoveForgetsEntry | src/lib/cart-storage.ts:68-72 | after `remove`, `getAll` is `getAll` with that key skipped |
| CartStorage.Filter | src/lib/cart-storage.ts:76 | the filtered key list is the list without that key |
| CartStorage.Clear | src/lib/cart-storage.ts:74-79 | `clear` removes every cart key and leaves all other keys untouched |
| CartStorage.ClearEmptiesCart | src/lib/cart-storage.ts:74-79 | after `clear`, `getAll` is empty |
| CartStorage.GetCount | src/lib/cart-storage.ts:81-83 | no window counts 0 |
| CartStorage.GetTotal | src/lib/cart-storage.ts:85-87 | no window totals 0 |
| CartStorage.CountIsSum | src/lib/cart-storage.ts:81-83 | with finite numbers `getCount` is the sum of the quantities |
| CartStorage.TotalIsSum | src/lib/cart-storage.ts:85-87 | with finite numbers `getTotal` is the sum of price times quantity |
| CartStorage.NaNQuantityPoisonsCount | src/lib/cart-storage.ts:82 | one NaN quantity makes the count NaN |
| CartStorage.NaNAbsorbsCount | src/lib/cart-storage.ts:82 | once the running count is NaN it stays NaN |
| ProductCard.NextQuantity | src/components/product/ProductCard.tsx:33-43 | no entry or unparsable text gives 1; a numeric quantity q gives q+1, anything else gives 1 |
| ProductCard.HandleAddToCart | src/components/product/ProductCard.tsx:45-55 | only the product's cart key is added or changed |
| ProductCard.RecordParsesBack | src/components/product/ProductCard.tsx:45-55 | after the JSON round trip the record keeps the id, title and price; `description` and `imageFileIds` come back in JSON form, or are absent when the product has none; a non-finite quantity comes back as null, and there is no `image` field |
| ProductCard.ReadBack | src/components/product/ProductCard.tsx:45-55 | `getAll` reads the written record back as the product with the next quantity |
| ProductCard.TwoClicksGiveTwo | src/components/product/ProductCard.tsx:34-43 | two clicks on a product not yet in the cart give quantity 2 |
| ProductCard.MarkAsSeen | src/components/product/ProductCard.tsx:61-67 | writes the `seen_product_` key with the time and leaves the cart part unchanged |
| ProductCard.MarkAsSeenKeepsCart | src/components/product/ProductCard.tsx:61-67 | `getAll` after `markAsSeen` equals `getAll` on the cart part before it |
| CartBadge.Contribution | src/components/layout/Header.tsx:17-24 | an empty or absent entry adds nothing; an entry whose parsed quantity is a number adds it; an unparsable or quantity-less entry adds 1 |
| CartBadge.GetCartCount | src/components/layout/Header.tsx:11-12 | no window counts 0 |
| CartBadge.CountReadsOnlyCartKeys | src/components/layout/Header.tsx:14-15 | the badge count depends only on the cart entries |
| CartBadge.AgreesWithCartStorage | src/components/Header.tsx:15-29 | on well-formed entries the badge count equals `CartStorage.getCount` |
| CartBadge.MalformedEntryCountsOne | src/components/layout/Header.tsx:22-24 | an unparsable entry counts 1 in the badge but 0 in `CartStorage.getCount` |
| CartBadge.BadgeLabel | src/components/layout/Header.tsx:134-145 | the badge shows iff count > 0; above 9 it reads "9+", otherwise the count |
| CartBadge.BadgeForWholeCounts | src/components/Header.tsx:83-86 | 0 hides the badge, 1..9 shows the digit, and more shows "9+" |
| CartFeature.Items | src/features/cart/cart.utils.ts:6-16 | at most one item per key |
| CartFeature.GetCartItems | src/features/cart/cart.utils.ts:4 | no window gives [] |
| CartFeature.OneItemPerReadableEntry | src/features/cart/cart.utils.ts:8-15 | one item per present, parsable cart entry; empty and malformed ones are skipped |
| CartFeature.ItemsAreParsedEntries | src/features/cart/cart.utils.ts:12 | every item is exactly what some cart entry parses to, without a shape check |
| CartFeature.SumFrom | src/features/cart/cart.store.ts:4 | a null item makes the reduce throw |
| CartFeature.GetCartCount | src/features/cart/cart.store.ts:3-5 | no window counts 0 |
| CartFeature.CountIsSum | src/features/cart/cart.store.ts:4 | with numeric quantities the count is their sum |
| CartFeature.OtherKeyRemoved | src/features/cart/cart.utils.ts:6-16 | removing a key the list does not name leaves the items unchanged |
| CartFeature.CountOfItems | src/features/cart/cart.store.ts:3-5 | with numeric quantities `getCartCount` is the sum of the items' quantities |
| CartFeature.RemovedQuantity | src/features/cart/cart.store.ts:4 | removing one entry takes exactly its quantity off the sum |
| CartFeature.DroppedKeySkipped | src/features/cart/cart.utils.ts:9-10 | a removed key is skipped, so dropping it from the key list changes nothing |
| CartFeature.RemovingLowersCount | src/features/cart/cart.store.ts:3-5 | `getCartCount` after removing an entry is the count before minus that entry's quantity |
| CartFeature.MissingQuantityIsNaN | src/features/cart/cart.store.ts:4 | an entry without a quantity makes the count NaN |
| CartFeature.StringQuantityConcatenates | src/features/cart/cart.store.ts:4 | a string quantity "2" is concatenated, so the count is "02" |
| CartSidebar.LoadEntry | src/components/CartSidebar.tsx:64-73 | a null entry throws; a loaded line takes id, name, price and quantity as stored; no first image id means no image |
| CartSidebar.LoadLines | src/components/CartSidebar.tsx:58-76 | at most one line per key |
| CartSidebar.Load | src/components/CartSidebar.tsx:55-56 | a closed sidebar keeps its lines |
| CartSidebar.LoadReadsOnlyCartKeys | src/components/CartSidebar.tsx:59-62 | loading depends only on the cart keys |
| CartSidebar.GarbledEntryAbortsLoad | src/components/CartSidebar.tsx:64 | an unparsable cart entry makes the load throw |
| CartSidebar.Subtotal | src/components/CartSidebar.tsx:50 | with finite numeric prices and quantities the subtotal is Σ price × quantity |
| CartSidebar.SubtotalIsSum | src/components/CartSidebar.tsx:50 | with finite numbers the subtotal is the sum of price times quantity |
| CartSidebar.Total | src/components/CartSidebar.tsx:51 | total is subtotal + shipping + tax |
| CartSidebar.RemainingForFree | src/components/CartSidebar.tsx:52 | the remainder is never negative, is 0 iff the subtotal reaches 120, and is 120 - subtotal below that |
| CartSidebar.Progress | src/components/CartSidebar.tsx:53 | progress is at most 100, is 100 from 120 upward, and is subtotal/120*100 below that |
| CartSidebar.ProgressFullIffNothingRemains | src/components/CartSidebar.tsx:52-53 | progress is 100 iff nothing remains for free shipping |
| CartSidebar.ShippingRow | src/components/CartSidebar.tsx:303 | the shipping label is "Free" iff shipping is 0 |
| CartSidebar.Kept | src/components/CartSidebar.tsx:100 | the filter keeps exactly the lines whose id is not `===` the given id, whatever JSON value that id is |
| CartSidebar.KeptDistributes | src/components/CartSidebar.tsx:100 | filtering a concatenation filters each part, so the order is kept |
| CartSidebar.KeptIdentity | src/components/CartSidebar.tsx:100 | when no line's id is `===` the given one the list is unchanged |
| CartSidebar.OnRemove | src/components/CartSidebar.tsx:99-103 | for an id of any JSON value: drops the lines whose id is `===` it and deletes only the key `cart_item_` + String(id) |
| CartSidebar.UndefinedIdKeepsEntry | src/components/CartSidebar.tsx:99-103 | removing a line whose id is undefined drops every undefined-id line, deletes "cart_item_undefined" and leaves every other stored key in place |
| CartSidebar.NaNIdRemovesNoLine | src/components/CartSidebar.tsx:100 | an id of NaN is `===` to nothing, so removing it keeps every line |
| CartSidebar.Bumped | src/components/CartSidebar.tsx:106-108 | only the quantity changes: a numeric quantity gains delta, a string quantity gets the number appended as text |
| CartSidebar.OnIncDec | src/components/CartSidebar.tsx:105-124 | for an id of any JSON value: only the lines whose id is `===` it change, by delta; only the key `cart_item_` + String(id) is written; when no line matches nothing is written |
| CartSidebar.NoLowerBound | src/components/CartSidebar.tsx:108 | quantity 1 decremented gives quantity 0 and the line stays |
| CartSidebar.OnIncDecWritesLast | src/components/CartSidebar.tsx:105-124 | after `onIncDec` the key `cart_item_` + String(id) holds the JSON of the last matching line, bumped by delta |
| CartSidebar.OnIncDecReloads | src/components/CartSidebar.tsx:64-73 | what `onIncDec` writes parses and reloads as the bumped last matching line, with its id, name, price and new quantity; a line without an image comes back exactly |
| CartSidebar.BumpedIsJson | src/components/CartSidebar.tsx:110 | adding a finite delta to a JSON quantity gives a JSON value, so the bumped line survives `JSON.stringify` |
| CartSidebar.RoundTrip | src/components/CartSidebar.tsx:64-73 | a written line reloads with the same id, name, price and quantity; an image URL does not come back as itself |
| CartSidebar.RecordIsJson | src/components/CartSidebar.tsx:111-117 | the written record is JSON-shaped |
| CartSidebar.Reload | src/components/CartSidebar.tsx:109-117 | loading the written record directly gives the same line, with the image rebuilt as a URL |
| CartSidebar.LoadedLinesComeFromEntries | src/components/CartSidebar.tsx:59-73 | every loaded line comes from some present, parsable cart entry |
| Forms.ClientIp | src/lib/order.ts:59-62 | the first trimmed `x-forwarded-for` entry, else `x-real-ip`, else "unknown" |
| Forms.ClientIpFirstHop | src/app/api/orders/route.ts:50-52 | with several hops the first one is taken, trimmed |
| Forms.BlankForwardedForWins | src/lib/order.ts:59-62 | a blank `x-forwarded-for` gives "" and `x-real-ip` is not consulted |
| CheckoutCart.ToInt | src/actions/site/checkout.ts:27-31 | non-finite gives 0; otherwise the floor of the number |
| CheckoutCart.LineOf | src/actions/site/checkout.ts:39-44 | only objects give a line, and a kept line has a non-empty id and a positive quantity |
| CheckoutCart.MakeLine | src/actions/site/checkout.ts:44 | a line is kept exactly when its id is non-empty and its quantity positive |
| CheckoutCart.Lines | src/actions/site/checkout.ts:38-44 | filtering and mapping never yield more lines than array elements |
| CheckoutCart.LinesValid | src/actions/site/checkout.ts:38-44 | every kept line has a non-empty id and a positive quantity |
| CheckoutCart.ParseCartItems | src/actions/site/checkout.ts:33-48 | malformed JSON or a non-array gives [] |
| CheckoutCart.LinesComeFromElements | src/actions/site/checkout.ts:38-44 | a line is kept iff some array element maps to it |
| CheckoutCart.OtherFieldsIgnored | src/actions/site/checkout.ts:40-43 | only productId and quantity of each element matter |
| CheckoutCart.QuantityIsFloored | src/actions/site/checkout.ts:41-42 | an object whose productId is text that is not blank once trimmed and whose quantity is a number of at least 1 gives the trimmed id and the quantity rounded down |
| CheckoutCart.PutKeys | src/actions/site/checkout.ts:80 | `Map.set` appends a new key and leaves an existing key in its place |
| CheckoutCart.PutLookup | src/actions/site/checkout.ts:80 | after `Map.set` the key holds the new value and every other key its old one |
| CheckoutCart.MergeFromPrefix | src/actions/site/checkout.ts:79-81 | merging only appends keys |
| CheckoutCart.MergeFromDistinct | src/actions/site/checkout.ts:79-81 | merging keeps keys distinct |
| CheckoutCart.MergeFromMembers | src/actions/site/checkout.ts:79-81 | a key is present iff it was already present or occurs in the lines |
| CheckoutCart.MergeKeys | src/actions/site/checkout.ts:78-82 | the product ids are distinct and are exactly the ids of the lines |
| CheckoutCart.Merge | src/actions/site/checkout.ts:78-82 | each product id appears exactly once, and only ids from the cart appear |
| CheckoutCart.MergeFromSums | src/actions/site/checkout.ts:80 | each merged quantity is the old one plus the sum of that id's occurrences |
| CheckoutCart.MergeSums | src/actions/site/checkout.ts:78-81 | each merged quantity is the sum of that id's quantities |
| CheckoutCart.MergeKeepsFirstSeen | src/actions/site/checkout.ts:82 | the first merged id is the first line's id |
| CheckoutCart.MergeFromAppendsNew | src/actions/site/checkout.ts:79-81 | continuing the merge appends the not-yet-seen ids of the lines, in first-occurrence order |
| CheckoutCart.MergeKeysFirstOccurrences | src/actions/site/checkout.ts:78-82 | `Array.from(qtyById.keys())` is the cart's product ids with repeats dropped, each at its first occurrence |
| CheckoutCart.MergedQuantitiesPositive | src/actions/site/checkout.ts:80 | every merged quantity is positive |
| Checkout.ReadForm | src/actions/site/checkout.ts:54-64 | a missing `items` gives "[]", a missing `ipAddress` gives "null", and a missing name gives "" |
| Checkout.CheckRequired | src/actions/site/checkout.ts:68-72 | passes iff all five fields are non-empty; otherwise the first empty one in the order fullName, phone, address, city, postalCode names the error, each with its own message |
| Checkout.OrderNumber | src/actions/site/checkout.ts:52 | the order number starts with "ORDER-" |
| Checkout.ProductQueries | src/actions/site/checkout.ts:86-89 | the catalogue lookup reads a page of 100 |
| Checkout.FindDoc | src/actions/site/checkout.ts:92 | the looked-up product has the id, and is absent iff no listed document has it |
| Checkout.Missing | src/actions/site/checkout.ts:94 | the missing ids are exactly the requested ids with no listed product |
| Checkout.MissingMessage | src/actions/site/checkout.ts:96 | the message starts with "Some items are no longer available: " and is exactly that prefix when nothing is missing |
| Checkout.MissingMessageNames | src/actions/site/checkout.ts:96 | the message names every missing id |
| Checkout.LineFrom | src/actions/site/checkout.ts:102-119 | a switched-off product fails as unavailable; a non-finite or negative price fails as invalid; otherwise the line total is price times quantity |
| Checkout.PriceLine | src/actions/site/checkout.ts:102-119 | `isActive` exactly false fails as unavailable; any other `isActive`, an absent one included, goes on to the price check, where a non-finite or negative `Number(price)` fails as invalid; a priced line carries the id, the quantity, the catalogue price and price times quantity |
| Checkout.LineFor | src/actions/site/checkout.ts:99-119 | an id with no product on the page throws a TypeError; a priced line has that id, the merged quantity and a non-negative price |
| Checkout.PriceLines | src/actions/site/checkout.ts:99-120 | the map succeeds iff every id's line does, and then yields one line per id, in order |
| Checkout.FirstFailureAborts | src/actions/site/checkout.ts:99-120 | the map throws the error of the first id whose line fails |
| Checkout.TotalIsLineSum | src/actions/site/checkout.ts:122 | the running total is the sum of the line totals |
| Checkout.ItemDocs | src/actions/site/checkout.ts:145-155 | one item document per priced line, in order |
| Checkout.WriteOrder | src/actions/site/checkout.ts:124-157 | the header is written first with the computed total; on success one item per line follows under the header's id; a conflict is the only failure |
| Checkout.PlaceOrder | src/actions/site/checkout.ts:76-157 | an error before the writes leaves the store unchanged; a write appends exactly one header |
| Checkout.CreateOrder | src/actions/site/checkout.ts:50-76 | a missing required field fails before anything else with the store unchanged; products and files are never touched |
| Checkout.EmptyCartRejected | src/actions/site/checkout.ts:74-76 | no valid line gives "Cart is empty" and nothing is written |
| Checkout.NotInSubset | src/actions/site/checkout.ts:91-94 | an id missing from the collection is missing from any page of it |
| Checkout.UnknownProductRejected | src/actions/site/checkout.ts:94-97 | a cart naming a product the catalogue lacks fails with exactly the missing-items message over the ids missing from the page, that message names the product, and nothing is written |
| Checkout.PricingFailureRejected | src/actions/site/checkout.ts:94-120 | with every id on the page, the first failing line's error is the order's error and nothing is written |
| Checkout.InactiveProductRejected | src/actions/site/checkout.ts:102-104 | the first failing product being switched off fails the order with "Product unavailable: " and its title or id, and nothing is written |
| Checkout.InvalidPriceRejected | src/actions/site/checkout.ts:106-109 | the first failing product being active with a non-finite or negative price fails the order with "Invalid price for product: " and its title or id, and nothing is written |
| Checkout.LineForFacts | src/actions/site/checkout.ts:99-119 | a priced line carries the merged quantity and the catalogue's non-negative price |
| Checkout.PricedItems | src/actions/site/checkout.ts:99-122 | one line per merged id in order, with the summed quantity and the catalogue price; the total is the line sum |
| Checkout.SuccessfulOrder | src/actions/site/checkout.ts:99-157 | success writes one "ordered" header whose total is the sum of the server-priced lines, then one item per distinct product |
| LegacyOrder.ToPrice | src/lib/order.ts:40-44 | succeeds iff `Number(s)` is finite, giving that number, else throws "Price must be a valid number" |
| LegacyOrder.Mapped | src/lib/order.ts:82-86 | mapping an element throws iff its price is not finite |
| LegacyOrder.Objects | src/lib/order.ts:81 | keeps exactly the truthy object elements |
| LegacyOrder.RawsBy | src/lib/order.ts:82-86 | one coerced record per element, in order |
| LegacyOrder.Kept | src/lib/order.ts:87 | keeps exactly the items with a non-empty title and a positive quantity |
| LegacyOrder.MapItems | src/lib/order.ts:82-86 | succeeds iff every price is finite, and then maps element by element |
| LegacyOrder.ItemsBy | src/lib/order.ts:76-91 | malformed JSON or a non-array gives [] |
| LegacyOrder.ParseItems | src/lib/order.ts:76-91 | malformed JSON or a non-array gives [] |
| LegacyOrder.BadPriceEmptiesCart | src/lib/order.ts:84-91 | one object with a non-finite price empties the whole item list |
| LegacyOrder.BadCoercionEmptiesCart | src/lib/order.ts:89-91 | any element whose price fails empties the list |
| LegacyOrder.KeptItems | src/lib/order.ts:79-87 | an item is kept iff some element maps to it with a non-empty title and a positive quantity |
| LegacyOrder.QuantitiesKeptAsPosted | src/lib/order.ts:85-87 | a repeated element gives two items: duplicates are not merged and 1.5 is not floored |
| LegacyOrder.TwiceGivesTwo | src/lib/order.ts:80-87 | the same for any coercion |
| LegacyOrder.WholePriceReadBack | src/lib/order.ts:84 | every whole non-negative price survives `Number(String(price))` unchanged |
| LegacyOrder.LineReadBack | src/lib/order.ts:83-85 | a line with a string title, a whole price and a numeric quantity is read as the trimmed title, that price and the quantity exactly as posted, fractions included |
| LegacyOrder.ComputedIsSum | src/lib/order.ts:93 | the computed total is the sum of price times quantity |
| LegacyOrder.ChooseTotal | src/lib/order.ts:95 | a positive client total wins; otherwise the computed total is used |
| LegacyOrder.Country | src/lib/order.ts:64-67 | `x-vercel-ip-country`, else `cf-ipcountry`, else "unknown" |
| LegacyOrder.ReadRequest | src/lib/order.ts:50-67 | the provenance fields come from the headers and the other fields are read as in the newer checkout |
| LegacyOrder.ItemDocs | src/lib/order.ts:119-130 | one item document per kept item, in order |
| LegacyOrder.WriteLegacy | src/lib/order.ts:97-132 | a fresh header id always gets a header; no items means no item writes |
| LegacyOrder.CreateOrder | src/lib/order.ts:46-132 | a missing required field fails with the store unchanged; a non-finite client total throws after the field checks |
| LegacyOrder.HeaderTotal | src/lib/order.ts:110 | the header stores the chosen total |
| LegacyOrder.PositiveClientTotalWins | src/lib/order.ts:93-95 | a positive client total is stored as the order total, whatever the items cost |
| LegacyOrder.EmptyCartStillWritesHeader | src/lib/order.ts:119-132 | an empty cart still writes the header, writes no item and succeeds |
| OrdersRoute.CopyFieldsSets | src/app/api/orders/route.ts:43-48 | a listed field is set to `String(value)` unless the value is undefined or null; other fields are untouched |
| OrdersRoute.WithServerFields | src/app/api/orders/route.ts:50-56 | sets ipAddress, userAgent, sourceCountry and items and nothing else |
| OrdersRoute.BuildForm | src/app/api/orders/route.ts:29-56 | only the seven whitelisted fields are copied; the client IP falls back to `x-real-ip` then "unknown"; the country is `x-country` or "unknown"; items is the JSON of `body.items ?? []` |
| OrdersRoute.ErrorMessage | src/app/api/orders/route.ts:65 | an Error's message is used; a non-Error gives "Failed to create order" |
| OrdersRoute.Respond | src/app/api/orders/route.ts:58-66 | status 201 exactly when an order was created, else 400 with the error's message; the stored state is the action's |
| OrdersRoute.Post | src/app/api/orders/route.ts:26-68 | an unparsable body gives 400 without any write; a parsed body is answered from the action run on the built form |
| OrdersRoute.RefusedBeforeWriting | src/app/api/orders/route.ts:58-66 | a form the required-field checks refuse gives 400 with that check's message and no write |
| OrdersRoute.ClientDetailsFromHeaders | src/app/api/orders/route.ts:50-54 | the action sees the header-derived provenance |
| OrdersRoute.CopiedFieldReachesAction | src/app/api/orders/route.ts:43-48 | a posted fullName reaches the action as its trimmed text |
| OrdersRoute.ItemsReachAction | src/app/api/orders/route.ts:56 | the action parses back the posted items, or [] |
| OrdersRoute.NameMissingInForm | src/app/api/orders/route.ts:43-48 | a body without fullName gives a form the action refuses for the name |
| OrdersRoute.MissingNameRejected | src/app/api/orders/route.ts:63-66 | a body without fullName gives 400 with "Full name is required" and no write |
| OrdersRoute.OrElse | src/app/api/orders/route.ts:89-97 | `??` keeps non-nullish values and `||` keeps truthy ones; otherwise the fallback |
| OrdersRoute.Notification | src/app/api/orders/route.ts:70-98 | a numeric client subtotal or total is mailed as sent; otherwise the server lines' sum and the subtotal; a falsy email is "Not provided" and falsy notes are "No notes"; the quantity is the running sum over the lines |
| OrdersRoute.SubtotalIsTotal | src/app/api/orders/route.ts:73-76 | the mailed fallback subtotal equals the order's server total |
| OrdersRoute.MailMatchesReceipt | src/app/api/orders/route.ts:60-78 | without client totals the mail shows the receipt's total twice |
| OrdersRoute.ClientSubtotalMailed | src/app/api/orders/route.ts:73-78 | a client subtotal becomes the mailed total when no total is sent |
| OrdersRoute.QuantityIsSum | src/app/api/orders/route.ts:94 | the running quantity from any start is that start plus Σ quantity over the lines |
| OrdersRoute.MailedQuantityIsSum | src/app/api/orders/route.ts:94 | the mailed quantity is Σ quantity over the priced lines, whatever the body holds |
| AdminOrders.ItemQueryMatches | src/actions/admin/orders.ts:19 | the item query matches exactly the documents whose "oreders" is the order id |
| AdminOrders.ItemsOf | src/actions/admin/orders.ts:18-20 | at most one default page of 25, all belonging to the order |
| AdminOrders.Belonging | src/actions/admin/orders.ts:19 | exactly the items that belong to the order |
| AdminOrders.SmallOrdersListedInFull | src/actions/admin/orders.ts:14-26 | an order with at most 25 items gets all of them |
| AdminOrders.FilterIsBelonging | src/actions/admin/orders.ts:19 | the backend filter keeps exactly the belonging items |
| AdminOrders.ListItemsForOrder | src/actions/admin/orders.ts:14-26 | one failure is retried with the same query; a second failure propagates |
| AdminOrders.OneFailureRetried | src/actions/admin/orders.ts:21-24 | one failure gives the same result as none |
| AdminOrders.OrderQueries | src/actions/admin/orders.ts:34-38 | always newest first with limit 100; a status filter is added only for a non-empty status other than "all" |
| AdminOrders.StatusQueryMatches | src/actions/admin/orders.ts:36-37 | the filter keeps exactly the orders with that status |
| AdminOrders.ListOrders | src/actions/admin/orders.ts:31-47 | at most 100 orders, all stored, all with the requested status |
| AdminOrders.NewestFirst | src/actions/admin/orders.ts:34 | the result is the newest-first prefix of the matching orders |
| AdminOrders.AllIsUnfiltered | src/actions/admin/orders.ts:36 | "all" and "" list like no status |
| AdminOrders.GetOrder | src/actions/admin/orders.ts:52-68 | an unknown order fails as not found; otherwise the order with its listed items |
| AdminOrders.StatusPatch | src/actions/admin/orders.ts:80 | the patch overwrites only `status` |
| AdminOrders.UpdateWritesStatus | src/actions/admin/orders.ts:76-81 | an update of a stored order succeeds and sets only its status |
| AdminOrders.WrittenStatus | src/actions/admin/orders.ts:76-83 | the updated order carries the new status |
| AdminOrders.UpdateOrderStatus | src/actions/admin/orders.ts:73-84 | fails iff the order is unknown; otherwise any status is written over any prior one and nothing else changes |
| AdminOrders.LastStatusWins | src/actions/admin/orders.ts:73-84 | two updates in a row leave the store as the second alone |
| AdminOrders.WriteKeepsIds | src/actions/admin/orders.ts:76-81 | a status write keeps every id |
| AdminOrders.StatusWritesCompose | src/actions/admin/orders.ts:76-81 | a write of s1 followed by one of s2 equals a write of s2 |
| AdminOrders.DeleteEach | src/actions/admin/orders.ts:95-97 | deletes the listed ids one after the other, stops at the first unknown id, and only ever removes documents |
| AdminOrders.DeleteEachPresent | src/actions/admin/orders.ts:95-97 | distinct stored ids all delete |
| AdminOrders.DeleteOrder | src/actions/admin/orders.ts:89-103 | the header goes only after the item deletions succeed; a second lookup failure changes nothing |
| AdminOrders.HeaderOutlivesFailedItems | src/actions/admin/orders.ts:95-100 | a failed item deletion leaves the header in place |
| AdminOrders.DeletedItemsAreTheListed | src/actions/admin/orders.ts:93-97 | a successful delete removes exactly the listed items |
| AdminOrders.IdSet | src/actions/admin/orders.ts:96 | the set of ids of a collection |
| AdminOrders.IdSetOfUnique | src/actions/admin/orders.ts:96 | distinct ids give as many ids as documents |
| AdminOrders.BelongingUnique | src/actions/admin/orders.ts:19 | the belonging items keep distinct ids |
| AdminOrders.ListedArePrefix | src/actions/admin/orders.ts:18-20 | the listed page is a prefix of the belonging items |
| AdminOrders.ListedIdsDeletable | src/actions/admin/orders.ts:95-97 | the listed ids are stored and distinct |
| AdminOrders.DeleteOrderLeavesOrphans | src/actions/admin/orders.ts:89-103 | with more than 25 items the delete succeeds and removes the header, yet an item of the order remains |
| AdminOrders.Pigeonhole | src/actions/admin/orders.ts:93-97 | a shorter list of ids misses some document of a longer list with distinct ids |
| AdminOrders.Unlisted | src/actions/admin/orders.ts:14-26 | with more than 25 items some item is not on the listed page |
| AdminOrders.DeleteItemsPaged | src/actions/admin/orders.ts:93-97 | repeating the page deletion until a page comes back empty leaves no item of the order |
| AdminOrders.EmptyPageNoItems | src/actions/admin/orders.ts:18-20 | an empty page means no item belongs to the order |
| AdminOrders.PagedSucceeds | src/actions/admin/orders.ts:93-97 | with distinct ids the paged deletion succeeds |
| AdminOrders.DeleteOrderPaged | src/actions/admin/orders.ts:89-103 | on success the header is gone and no item of the order remains |
| AdminOrders.PagedLeavesNoOrphans | src/actions/admin/orders.ts:89-103 | the paged delete always succeeds on a stored order and leaves no orphaned item |
| AdminOrders.CountStatus | src/actions/admin/orders.ts:121-126 | a status count is at most the number of orders |
| AdminOrders.CountToday | src/actions/admin/orders.ts:130-133 | the today count is at most the number of orders |
| AdminOrders.GetOrderStats | src/actions/admin/orders.ts:108-137 | total is the scanned count, at most 1000; the per-status and today counts are at most total |
| AdminOrders.ScanIsWhole | src/actions/admin/orders.ts:111-115 | up to 1000 orders are all scanned |
| AdminOrders.NoEqualityKeepsAll | src/actions/admin/orders.ts:114 | a query list without equality filters keeps everything |
| AdminOrders.CountsPartition | src/actions/admin/orders.ts:121-126 | with known statuses the six counts add up to the number of orders |
| AdminOrders.StatsPartition | src/actions/admin/orders.ts:119-126 | with known statuses the six counts add up to total |
| AdminOrders.RevenueFrom | src/actions/admin/orders.ts:127-129 | cancelled orders add nothing, so an all-cancelled scan leaves the start value; once the running sum is a string, `+` keeps it a string |
| AdminOrders.RevenueIsSum | src/actions/admin/orders.ts:127-129 | with numeric totals the revenue is the sum over orders that are not cancelled |
| AdminOrders.CancelledEarnNothing | src/actions/admin/orders.ts:128 | a cancelled order adds nothing |
| AdminOrders.TextTotalConcatenates | src/actions/admin/orders.ts:129 | a total stored as "5" is concatenated, giving "05" |
| AdminProducts.MinusDigits | src/app/admin/actions.ts:11 | `Number("-" + digits)` is minus the digits' value |
| AdminProducts.NegativePriceAccepted | src/app/admin/actions.ts:10-14 | a negative whole price passes `toPrice` |
| AdminProducts.UploadCount | src/app/admin/actions.ts:22 | the number of uploaded entries is at most the number of entries |
| AdminProducts.UploadImages | src/app/admin/actions.ts:16-38 | on success there is one id per non-empty file and the bucket is the earlier files followed by those ids; a failure keeps the earlier uploads |
| AdminProducts.UploadedIds | src/app/admin/actions.ts:20-35 | the uploaded ids are the consecutive fresh ids, in upload order |
| AdminProducts.NothingToUpload | src/app/admin/actions.ts:22 | only empty entries upload nothing and give [] |
| AdminProducts.FreshUploadsSucceed | src/app/admin/actions.ts:21-35 | files under fresh distinct ids all upload |
| AdminProducts.ReadProductForm | src/app/admin/actions.ts:44-46 | title, price and description are read trimmed |
| AdminProducts.CheckCreate | src/app/admin/actions.ts:48-54 | fails in this order: empty title, empty price, non-numeric price, no image entry; passes iff none applies |
| AdminProducts.OptionalText | src/app/admin/actions.ts:66 | an empty description is not sent |
| AdminProducts.IdValues | src/app/admin/actions.ts:67 | the ids as JSON strings, in order |
| AdminProducts.WriteProduct | src/app/admin/actions.ts:56-71 | on success the uploaded ids are stored on one new product under the next fresh id |
| AdminProducts.CreateProduct | src/app/admin/actions.ts:43-72 | a failed check changes nothing; otherwise the uploads and the write follow |
| AdminProducts.WriteWithoutImages | src/app/admin/actions.ts:56-69 | only empty image entries store a product with no image |
| AdminProducts.NoImageIds | src/app/admin/actions.ts:67 | an empty id list is stored as [] |
| AdminProducts.ImagelessProductCreated | src/app/admin/actions.ts:53-56 | a form whose image entries are all empty files passes the check and creates a product with no image |
| AdminProducts.CreateProductChecked | src/app/admin/actions.ts:53-56 | with the image check made on the uploaded files, no upload means no product |
| AdminProducts.ImagesStored | src/app/admin/actions.ts:67 | the stored image list is the uploaded ids in order |
| AdminProducts.CheckedProductHasImages | src/app/admin/actions.ts:53-69 | every product the checked action stores has at least one image |
| AdminProducts.ParseIdList | src/app/admin/actions.ts:89-95 | malformed or non-array JSON gives []; an array is kept as is |
| AdminProducts.FinalImages | src/app/admin/actions.ts:100-103 | "replace" keeps only the new ids; any other mode gives existing then new |
| AdminProducts.UploadForUpdate | src/app/admin/actions.ts:97-98 | uploads only when there are image entries |
| AdminProducts.ApplyPatch | src/app/admin/actions.ts:105-118 | a bad price throws before the write; an unknown product fails; on success only that product changes, by the patch |
| AdminProducts.UpdateProduct | src/app/admin/actions.ts:78-119 | an empty productId fails with "Missing productId" and no change; uploads come first; only a successful update changes products |
| AdminProducts.EmptyPriceIsZero | src/app/admin/actions.ts:112 | an empty price becomes 0 |
| AdminProducts.BadPriceAfterUpload | src/app/admin/actions.ts:97-116 | a bad price fails the update after the images were uploaded, and they stay in the bucket |
| AdminProducts.ClearedDescriptionKept | src/app/admin/actions.ts:113 | an emptied description is not sent, so the stored one stays |
| AdminProducts.DeleteFilesSettled | src/app/admin/actions.ts:146-150 | removes exactly the files named in the list; failures are ignored |
| AdminProducts.DeleteProduct | src/app/admin/actions.ts:125-153 | an empty productId fails; the document goes first and a failure there changes nothing; files go only when deleteImages is exactly "yes" |
| AdminProducts.UnknownProductKeepsFiles | src/app/admin/actions.ts:143 | deleting an unknown product fails before any file is touched |

## Left out

- Rendering, styling, timers, scroll and keyboard listeners, modals, `router.push`, `alert`, `console.log` and the `cart:updated` events are not modelled: they carry no stated behaviour beyond what the model covers.
- JSON text is not parsed character by character. `JSON.parse` and `JSON.stringify` are a `Codec` parameter with the laws of `JsValue.Lawful`.
- Floating point rounding is not modelled; all arithmetic is exact on `real`.
- `Number.prototype.toFixed`, `Intl.NumberFormat`, exponent notation in `String(number)` and the percent strings of the zoom position are also left out.
- `localStorage.key(i)` order and `Object.keys(localStorage)` order are not modelled: both are a key-list parameter.
- `Date.now()`, `Math.random()`, `new Date().toISOString()`, the backend's creation timestamps and `ID.unique()` are parameters.
- Concurrency is not modelled: `Promise.all` item writes are one sequential batch, and a failure part-way keeps the earlier writes.
- Header name case-insensitivity of `Headers` is not modelled: headers are looked up by lower-case name.
- The route matcher `matcher: ["/admin/:path*"]` (src/middleware.ts:19-21) is not modelled: it is framework configuration that decides which requests reach the middleware. `Middleware.Gate` is the middleware function applied to any path, so a path such as "/administrator", which the matcher may never route to it, is still covered by the model's prefix test.
- CartSidebar.OnRemove: an id that is an object or an array is compared by content (`JsValue.StrictEquals`), while `!==` compares such values by reference. Each stored line is parsed separately, so in JavaScript only the clicked line matches such an id, whereas the model also matches other lines whose id has the same content.
- CartSidebar.OnIncDec: the same reference-versus-content difference for object and array ids as `CartSidebar.OnRemove`.
- CartSidebar.Kept: the same reference-versus-content difference for object and array ids as `CartSidebar.OnRemove`.
- Pagination.PageNumbers: the page count is a whole number, as its one caller computes it with `Math.ceil` (src/app/[locale]/(site)/shop/page.tsx:27); a fractional page count is not modelled.
- Pagination.Navigation: the page count is a whole number, for the same reason as `Pagination.PageNumbers`.
- Only part of the Appwrite backend is modelled:
  - queries are limited to equality, limit and newest-first ordering;
  - errors are the not-found and already-exists kinds only;
  - permissions, the API key and `createAppwriteServer` are not modelled;
  - configuration failures are not modelled, because the environment is taken as configured.
- The `$id` key the checkout puts in each order item's data is stored as an ordinary attribute. What the backend does with a reserved key there is not modelled.
- AdminProducts.UploadImages: a text value under `images` is taken as a storage failure; what the SDK does with it is not modelled. File contents and the public-read permission are not modelled.
- OrdersRoute.Notification: the item list text (`toFixed`), the order date, the string forms of quantity, price and total, and the `fetch` to the notification endpoint are left out. The HTTP result never depends on the notification, so `OrdersRoute.Post` does not include it.
- Apart from the retried item lookup, network failures of the SDK calls are not modelled.
- `castDocument`/`castDocuments` are unchecked casts and are not modelled.
- The admin login allowlist and session handling are not part of this model.

## Findings

| source | as written | input that shows it | evidently intended | confidence | as-written member | corrected member |
|---|---|---|---|---|---|---|
| src/actions/admin/orders.ts:14-26 | `deleteOrder` lists the order's items with no `Query.limit`, so it gets one default page of 25, deletes those, and then deletes the header | an order with 26 items: after `deleteOrder` the header is gone and one item still points at it | every item of the order is deleted before the header | medium, not executed; relies on the backend's default page size of 25 | AdminOrders.DeleteOrderLeavesOrphans | AdminOrders.DeleteOrderPaged |
| src/app/admin/actions.ts:53-56 | the "Upload at least 1 image" check counts `images` form entries, but `uploadImages` skips empty files | a form whose only `images` entry is an empty file creates a product whose `imageFileIds` is []. Both product forms mark the file input `required` (src/components/admin/AdminCreateProductForm.tsx:64, src/components/admin/AdminProductForm.tsx:73), so a browser does not submit such a form from the UI; the case arises when the server action is called directly or by a client that ignores the attribute | a product is created only with at least one uploaded image | low, not executed; reachable only past the form's `required` check | AdminProducts.ImagelessProductCreated | AdminProducts.CreateProductChecked |
