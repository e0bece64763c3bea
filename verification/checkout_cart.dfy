/**
 * How the checkout action reads the cart it is sent
 * (src/actions/site/checkout.ts): the `items` field is JSON, each object in
 * it becomes a (productId, whole quantity) line, and lines for the same
 * product are merged into one quantity per product, in first-seen order.
 */
module CheckoutCart {
  import opened Wrappers
  import opened JsString
  import opened JsNumber
  import opened JsValue

  /** `toInt(value, 0)`: the floor of a finite number, 0 otherwise. */
  function ToInt(v: Value): (n: int)
    ensures !ToNumber(v).Finite? ==> n == 0
    ensures ToNumber(v).Finite? ==> n as real <= ToNumber(v).r < n as real + 1.0
  {
    match ToNumber(v)
    case Finite(x) => x.Floor
    case _ => 0
  }

  /** A line of the posted cart. */
  datatype CartLine = CartLine(productId: string, quantity: int)

  /** What the second filter lets through: a non-blank id and a quantity of at least one. */
  predicate ValidLine(l: CartLine) {
    l.productId != "" && l.quantity > 0
  }

  /** The line one array element yields: objects only, with a non-blank id and a positive whole quantity. */
  function LineOf(x: Value): (r: Option<CartLine>)
    ensures r.Some? ==> IsObjectLike(x) && ValidLine(r.value)
    ensures !IsObjectLike(x) ==> r.None?
  {
    if !IsObjectLike(x) then None
    else MakeLine(CartId(x), CartQuantity(x))
  }

  /** `String(item.productId ?? "").trim()`. */
  function CartId(x: Value): string {
    Trim(ToStr(Coalesce(Get(x, "productId"), Str(""))))
  }

  /** `toInt(item.quantity ?? 0, 0)`. */
  function CartQuantity(x: Value): int {
    ToInt(Coalesce(Get(x, "quantity"), Real(0.0)))
  }

  /** The second filter: a blank id or a quantity below one drops the line. */
  function MakeLine(id: string, q: int): (r: Option<CartLine>)
    ensures r.Some? <==> ValidLine(CartLine(id, q))
    ensures r.Some? ==> r.value == CartLine(id, q)
  {
    if id != "" && q > 0 then Some(CartLine(id, q)) else None
  }

  /** The filter-map-filter chain of `parseCartItems` over the parsed array. */
  function Lines(elems: seq<Value>): (lines: seq<CartLine>)
    ensures |lines| <= |elems|
  {
    if elems == [] then []
    else
      var here := LineOf(elems[0]);
      var rest := Lines(elems[1..]);
      if here.None? then rest
      else
        [here.value] + rest
  }

  /** Every line that survives the filters has a non-blank id and a positive quantity. */
  lemma {:induction false} LinesValid(elems: seq<Value>)
    ensures forall i :: 0 <= i < |Lines(elems)| ==> ValidLine(Lines(elems)[i])
  {
    if elems != [] {
      LinesValid(elems[1..]);
      var here := LineOf(elems[0]);
      var rest := Lines(elems[1..]);
      if here.Some? {
        var lines := [here.value] + rest;
        assert Lines(elems) == lines;
        assert forall i :: 0 < i < |lines| ==> lines[i] == rest[i - 1];
      }
    }
  }

  /** `parseCartItems(itemsRaw)`: [] for unparseable text and for anything but an array. */
  function ParseCartItems(c: Codec, raw: string): (lines: seq<CartLine>)
    ensures c.parse(raw).None? ==> lines == []
    ensures c.parse(raw).Some? && !c.parse(raw).value.Array? ==> lines == []
  {
    match c.parse(raw)
    case Some(Array(a)) => Lines(a)
    case _ => []
  }

  /** A line is kept exactly when some element yields it. */
  lemma {:induction false} LinesComeFromElements(elems: seq<Value>, l: CartLine)
    ensures l in Lines(elems) <==> exists i :: 0 <= i < |elems| && LineOf(elems[i]) == Some(l)
  {
    if elems != [] {
      var tail := elems[1..];
      var h := LineOf(elems[0]);
      LinesComeFromElements(tail, l);
      assert l in Lines(elems) <==> h == Some(l) || l in Lines(tail) by {
        if h.Some? {
          assert Lines(elems) == [h.value] + Lines(tail);
          ConsMember(h.value, Lines(tail), l);
        }
      }
      assert (exists i :: 0 <= i < |elems| && LineOf(elems[i]) == Some(l))
        <==> h == Some(l) || exists j :: 0 <= j < |tail| && LineOf(tail[j]) == Some(l)
      by {
        if exists i :: 0 <= i < |elems| && LineOf(elems[i]) == Some(l) {
          var i :| 0 <= i < |elems| && LineOf(elems[i]) == Some(l);
          if i > 0 {
            assert tail[i - 1] == elems[i];
          }
        }
        if exists j :: 0 <= j < |tail| && LineOf(tail[j]) == Some(l) {
          var j :| 0 <= j < |tail| && LineOf(tail[j]) == Some(l);
          assert elems[j + 1] == tail[j];
        }
      }
    }
  }

  lemma ConsMember<T>(a: T, s: seq<T>, x: T)
    ensures x in [a] + s <==> x == a || x in s
  {
    var r := [a] + s;
    if x in s {
      var i :| 0 <= i < |s| && s[i] == x;
      assert r[i + 1] == x;
    }
  }

  /** Two elements that agree on the fields the checkout reads. */
  predicate SameCartFields(x: Value, y: Value) {
    && IsObjectLike(x) == IsObjectLike(y)
    && Get(x, "productId") == Get(y, "productId")
    && Get(x, "quantity") == Get(y, "quantity")
  }

  /** Only productId and quantity are read: prices, titles or anything else the client posts are ignored. */
  lemma {:induction false} OtherFieldsIgnored(a: seq<Value>, b: seq<Value>)
    requires |a| == |b|
    requires forall i :: 0 <= i < |a| ==> SameCartFields(a[i], b[i])
    ensures Lines(a) == Lines(b)
  {
    if a != [] {
      assert LineOf(a[0]) == LineOf(b[0]);
      OtherFieldsIgnored(a[1..], b[1..]);
    }
  }

  /**
   * Ids are trimmed and fractional quantities floored: an object whose
   * productId is " p " and whose quantity is 2.5 is a line of 2 of "p".
   */
  lemma QuantityIsFloored(x: Value, s: string, q: real)
    requires x.Object? && Get(x, "productId") == Str(s) && Get(x, "quantity") == Real(q)
    requires Trim(s) != "" && q >= 1.0
    ensures LineOf(x) == Some(CartLine(Trim(s), q.Floor))
  {
    assert CartId(x) == Trim(s);
    assert CartQuantity(x) == ToInt(Real(q)) == q.Floor;
  }

  // ---------------------------------------------------------------------
  // Merging: `qtyById`, a JavaScript Map from product id to quantity.
  // ---------------------------------------------------------------------

  /** A Map as its entries in insertion order. */
  type QtyMap = seq<(string, int)>

  function Keys(m: QtyMap): (ks: seq<string>)
    ensures |ks| == |m|
    ensures forall i :: 0 <= i < |m| ==> ks[i] == m[i].0
  {
    if m == [] then [] else [m[0].0] + Keys(m[1..])
  }

  predicate Distinct(ks: seq<string>) {
    forall i, j :: 0 <= i < j < |ks| ==> ks[i] != ks[j]
  }

  /** `m.get(id) ?? 0`. */
  function Lookup(m: QtyMap, id: string): int {
    if m == [] then 0
    else if m[0].0 == id then m[0].1
    else Lookup(m[1..], id)
  }

  /** `m.set(id, q)`: an existing entry keeps its place, a new one goes last. */
  function Put(m: QtyMap, id: string, q: int): QtyMap {
    if m == [] then [(id, q)]
    else if m[0].0 == id then [(id, q)] + m[1..]
    else [m[0]] + Put(m[1..], id, q)
  }

  /** `set` on a present key keeps the key order; on a new key it appends the key. */
  lemma {:induction false} PutKeys(m: QtyMap, id: string, q: int)
    ensures Keys(Put(m, id, q)) == if id in Keys(m) then Keys(m) else Keys(m) + [id]
  {
    if m != [] && m[0].0 != id {
      PutKeys(m[1..], id, q);
      var r := Put(m, id, q);
      assert r[1..] == Put(m[1..], id, q);
      assert Keys(m) == [m[0].0] + Keys(m[1..]);
      assert id in Keys(m) <==> id in Keys(m[1..]);
    }
  }

  /** After `set`, `get` answers the new value for that key and the old one for every other key. */
  lemma {:induction false} PutLookup(m: QtyMap, id: string, q: int, j: string)
    ensures Lookup(Put(m, id, q), j) == if j == id then q else Lookup(m, j)
  {
    if m != [] && m[0].0 != id {
      PutLookup(m[1..], id, q, j);
      assert Put(m, id, q)[1..] == Put(m[1..], id, q);
    }
  }

  /** Σ quantity over the lines for one product. */
  function Occurrences(lines: seq<CartLine>, id: string): int {
    if lines == [] then 0
    else (if lines[0].productId == id then lines[0].quantity else 0) + Occurrences(lines[1..], id)
  }

  function ProductIds(lines: seq<CartLine>): (ids: seq<string>)
    ensures |ids| == |lines|
    ensures forall i :: 0 <= i < |lines| ==> ids[i] == lines[i].productId
  {
    if lines == [] then [] else [lines[0].productId] + ProductIds(lines[1..])
  }

  /** The loop filling `qtyById`, continued from a map already holding some entries. */
  function MergeFrom(acc: QtyMap, lines: seq<CartLine>): QtyMap
    decreases |lines|
  {
    if lines == [] then acc
    else
      var id := lines[0].productId;
      MergeFrom(Put(acc, id, Lookup(acc, id) + lines[0].quantity), lines[1..])
  }

  /** Merging only appends: the keys of the starting map stay in front, in order. */
  lemma {:induction false} MergeFromPrefix(acc: QtyMap, lines: seq<CartLine>)
    ensures |Keys(acc)| <= |Keys(MergeFrom(acc, lines))|
    ensures Keys(MergeFrom(acc, lines))[..|Keys(acc)|] == Keys(acc)
    decreases |lines|
  {
    if lines != [] {
      var id := lines[0].productId;
      var next := Put(acc, id, Lookup(acc, id) + lines[0].quantity);
      PutKeys(acc, id, Lookup(acc, id) + lines[0].quantity);
      MergeFromPrefix(next, lines[1..]);
      assert MergeFrom(acc, lines) == MergeFrom(next, lines[1..]);
      var ks := Keys(MergeFrom(next, lines[1..]));
      assert Keys(next)[..|Keys(acc)|] == Keys(acc);
      assert ks[..|Keys(acc)|] == ks[..|Keys(next)|][..|Keys(acc)|];
    }
  }

  /** A new id is appended only when it is not there yet, so keys stay distinct. */
  lemma {:induction false} MergeFromDistinct(acc: QtyMap, lines: seq<CartLine>)
    requires Distinct(Keys(acc))
    ensures Distinct(Keys(MergeFrom(acc, lines)))
    decreases |lines|
  {
    if lines != [] {
      var id := lines[0].productId;
      var next := Put(acc, id, Lookup(acc, id) + lines[0].quantity);
      PutDistinct(acc, id, Lookup(acc, id) + lines[0].quantity);
      MergeFromDistinct(next, lines[1..]);
      assert MergeFrom(acc, lines) == MergeFrom(next, lines[1..]);
    }
  }

  lemma PutDistinct(m: QtyMap, id: string, q: int)
    requires Distinct(Keys(m))
    ensures Distinct(Keys(Put(m, id, q)))
  {
    PutKeys(m, id, q);
    if id !in Keys(m) {
      DistinctAppend(Keys(m), id);
    }
  }

  lemma DistinctAppend(ks: seq<string>, x: string)
    requires Distinct(ks) && x !in ks
    ensures Distinct(ks + [x])
  {
    var r := ks + [x];
    assert forall i :: 0 <= i < |ks| ==> r[i] == ks[i];
  }

  lemma ProductIdsHead(lines: seq<CartLine>, x: string)
    requires lines != []
    ensures x in ProductIds(lines) <==> x == lines[0].productId || x in ProductIds(lines[1..])
  {
    assert ProductIds(lines) == [lines[0].productId] + ProductIds(lines[1..]);
  }

  /** The keys are the ids already present plus the ids of the lines. */
  lemma {:induction false} MergeFromMembers(acc: QtyMap, lines: seq<CartLine>, x: string)
    ensures x in Keys(MergeFrom(acc, lines)) <==> x in Keys(acc) || x in ProductIds(lines)
    decreases |lines|
  {
    if lines != [] {
      var id := lines[0].productId;
      var next := Put(acc, id, Lookup(acc, id) + lines[0].quantity);
      assert MergeFrom(acc, lines) == MergeFrom(next, lines[1..]);
      MergeFromMembers(next, lines[1..], x);
      assert x in Keys(next) <==> x in Keys(acc) || x == id by {
        PutKeys(acc, id, Lookup(acc, id) + lines[0].quantity);
        if id !in Keys(acc) {
          AppendMember(Keys(acc), id, x);
        }
      }
      ProductIdsHead(lines, x);
    }
  }

  lemma AppendMember(ks: seq<string>, y: string, x: string)
    ensures x in ks + [y] <==> x in ks || x == y
  {
    var r := ks + [y];
    if x in ks {
      var i :| 0 <= i < |ks| && ks[i] == x;
      assert r[i] == x;
    }
    assert r[|ks|] == y;
  }

  lemma MergeKeys(lines: seq<CartLine>)
    ensures Distinct(Keys(MergeFrom([], lines)))
    ensures forall x :: x in Keys(MergeFrom([], lines)) <==> x in ProductIds(lines)
  {
    MergeFromDistinct([], lines);
    forall x
      ensures x in Keys(MergeFrom([], lines)) <==> x in ProductIds(lines)
    {
      MergeFromMembers([], lines, x);
    }
  }

  /** `qtyById` after the loop. */
  function Merge(lines: seq<CartLine>): (m: QtyMap)
    ensures Distinct(Keys(m))
    ensures forall id :: id in Keys(m) <==> id in ProductIds(lines)
  {
    MergeKeys(lines);
    MergeFrom([], lines)
  }

  /** Each product's merged quantity is the sum of its lines' quantities. */
  lemma {:induction false} MergeFromSums(acc: QtyMap, lines: seq<CartLine>, id: string)
    ensures Lookup(MergeFrom(acc, lines), id) == Lookup(acc, id) + Occurrences(lines, id)
    decreases |lines|
  {
    if lines != [] {
      var p := lines[0].productId;
      var next := Put(acc, p, Lookup(acc, p) + lines[0].quantity);
      PutLookup(acc, p, Lookup(acc, p) + lines[0].quantity, id);
      MergeFromSums(next, lines[1..], id);
      assert MergeFrom(acc, lines) == MergeFrom(next, lines[1..]);
      assert Occurrences(lines, id) == (if p == id then lines[0].quantity else 0) + Occurrences(lines[1..], id);
      if p == id {
        assert Lookup(next, id) == Lookup(acc, id) + lines[0].quantity;
      } else {
        assert Lookup(next, id) == Lookup(acc, id);
      }
    }
  }

  lemma MergeSums(lines: seq<CartLine>, id: string)
    ensures Lookup(Merge(lines), id) == Occurrences(lines, id)
  {
    MergeFromSums([], lines, id);
  }

  /** `seen` followed by the ids of `ids` not seen before, each where it first appears. */
  function AppendNew(seen: seq<string>, ids: seq<string>): seq<string>
    decreases |ids|
  {
    if ids == [] then seen
    else if ids[0] in seen then AppendNew(seen, ids[1..])
    else AppendNew(seen + [ids[0]], ids[1..])
  }

  /** The distinct ids in the order of their first appearance. */
  function FirstOccurrences(ids: seq<string>): seq<string> {
    AppendNew([], ids)
  }

  lemma {:induction false} MergeFromAppendsNew(acc: QtyMap, lines: seq<CartLine>)
    ensures Keys(MergeFrom(acc, lines)) == AppendNew(Keys(acc), ProductIds(lines))
    decreases |lines|
  {
    if lines != [] {
      var id := lines[0].productId;
      var next := Put(acc, id, Lookup(acc, id) + lines[0].quantity);
      PutKeys(acc, id, Lookup(acc, id) + lines[0].quantity);
      MergeFromAppendsNew(next, lines[1..]);
      assert MergeFrom(acc, lines) == MergeFrom(next, lines[1..]);
      assert ProductIds(lines)[0] == id && ProductIds(lines)[1..] == ProductIds(lines[1..]);
    }
  }

  /** The merged map's keys are the cart's product ids, each once, in first-seen order. */
  lemma MergeKeysFirstOccurrences(lines: seq<CartLine>)
    ensures Keys(Merge(lines)) == FirstOccurrences(ProductIds(lines))
  {
    MergeFromAppendsNew([], lines);
  }

  /** The first product in the cart is the first key: ids keep first-seen order. */
  lemma MergeKeepsFirstSeen(lines: seq<CartLine>)
    requires lines != []
    ensures Keys(Merge(lines)) != [] && Keys(Merge(lines))[0] == lines[0].productId
  {
    var first := Put([], lines[0].productId, Lookup([], lines[0].productId) + lines[0].quantity);
    PutKeys([], lines[0].productId, Lookup([], lines[0].productId) + lines[0].quantity);
    assert Keys(first) == [lines[0].productId];
    assert MergeFrom([], lines) == MergeFrom(first, lines[1..]);
    MergeFromPrefix(first, lines[1..]);
  }

  /** With positive line quantities every merged quantity is positive. */
  lemma {:induction false} MergedQuantitiesPositive(lines: seq<CartLine>, id: string)
    requires forall i :: 0 <= i < |lines| ==> lines[i].quantity > 0
    requires id in ProductIds(lines)
    ensures Occurrences(lines, id) > 0
  {
    if lines[0].productId != id {
      OccurrencesNonNegative(lines[1..], id);
      MergedQuantitiesPositive(lines[1..], id);
    } else {
      OccurrencesNonNegative(lines[1..], id);
    }
  }

  lemma {:induction false} OccurrencesNonNegative(lines: seq<CartLine>, id: string)
    requires forall i :: 0 <= i < |lines| ==> lines[i].quantity > 0
    ensures Occurrences(lines, id) >= 0
  {
    if lines != [] {
      OccurrencesNonNegative(lines[1..], id);
    }
  }
}
