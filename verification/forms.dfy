/**
 * Request inputs of the server actions: `FormData` (text fields and file
 * uploads) and request headers, with the client-address rules shared by
 * src/lib/order.ts and src/app/api/orders/route.ts.
 */
module Forms {
  import opened Wrappers
  import opened JsString

  /** One value of a form field: text, or an uploaded file of some size in bytes. */
  datatype Entry = Text(s: string) | Upload(size: nat)

  /** A form: each field name maps to its values in submission order. */
  type FormData = map<string, seq<Entry>>

  /** `formData.get(name)`: the first value, or null. */
  function FormGet(f: FormData, name: string): (r: Option<Entry>)
    ensures r.Some? <==> name in f && |f[name]| > 0
  {
    if name in f && |f[name]| > 0 then Some(f[name][0]) else None
  }

  /** `formData.getAll(name)`. */
  function FormGetAll(f: FormData, name: string): seq<Entry> {
    if name in f then f[name] else []
  }

  /** `formData.set(name, value)`: replaces every earlier value. */
  function FormSet(f: FormData, name: string, value: string): (r: FormData)
    ensures FormGet(r, name) == Some(Text(value))
    ensures forall k :: k != name ==> FormGet(r, k) == FormGet(f, k)
  {
    f[name := [Text(value)]]
  }

  /** `String(entry)`: a file renders as "[object File]". */
  function EntryString(e: Entry): string {
    match e
    case Text(s) => s
    case Upload(_) => "[object File]"
  }

  /** `String(formData.get(name) ?? fallback)`. */
  function FieldOr(f: FormData, name: string, fallback: string): (s: string)
    ensures FormGet(f, name).None? ==> s == fallback
    ensures FormGet(f, name).Some? && FormGet(f, name).value.Text? ==> s == FormGet(f, name).value.s
  {
    match FormGet(f, name)
    case None => fallback
    case Some(e) => EntryString(e)
  }

  /** `String(formData.get(name))`: a missing field becomes the text "null". */
  function FieldRaw(f: FormData, name: string): (s: string)
    ensures FormGet(f, name).None? ==> s == "null"
  {
    match FormGet(f, name)
    case None => "null"
    case Some(e) => EntryString(e)
  }

  /** `String(formData.get(name) ?? "").trim()`: the trimmed text of a field, "" when it is missing. */
  function TrimmedField(f: FormData, name: string): string {
    Trim(FieldOr(f, name, ""))
  }

  /** Request headers by lower-case name. */
  type Headers = map<string, string>

  /** `headers.get(name)`. */
  function HeaderGet(h: Headers, name: string): Option<string> {
    if name in h then Some(h[name]) else None
  }

  /** `headers.get("x-forwarded-for")?.split(",")[0]?.trim() ?? headers.get("x-real-ip") ?? "unknown"`. */
  function ClientIp(h: Headers): (ip: string)
    ensures "x-forwarded-for" in h ==> ip == Trim(Split(h["x-forwarded-for"], ',')[0])
    ensures "x-forwarded-for" !in h && "x-real-ip" in h ==> ip == h["x-real-ip"]
    ensures "x-forwarded-for" !in h && "x-real-ip" !in h ==> ip == "unknown"
  {
    match HeaderGet(h, "x-forwarded-for")
    case Some(xff) => Trim(Split(xff, ',')[0])
    case None => HeaderGet(h, "x-real-ip").GetOr("unknown")
  }

  /** Only the first hop of a forwarded-for list counts. */
  lemma ClientIpFirstHop(h: Headers, first: string, rest: string)
    requires ',' !in first
    requires "x-forwarded-for" in h && h["x-forwarded-for"] == first + "," + rest
    ensures ClientIp(h) == Trim(first)
  {
    SplitPrefix(first, rest, ',');
    assert first + "," + rest == first + [','] + rest;
  }

  /** A present but blank forwarded-for header yields "" rather than falling back to x-real-ip. */
  lemma BlankForwardedForWins(h: Headers)
    requires "x-forwarded-for" in h && h["x-forwarded-for"] == " " && "x-real-ip" in h
    ensures ClientIp(h) == ""
  {
    SplitNoSep(" ", ',');
    TrimEmptyIffAllSpace(" ");
  }
}
