/**
 * The cart feature helpers: `getCartItems` (src/features/cart/cart.utils.ts),
 * which returns parsed entries without checking their shape, and
 * `getCartCount` (src/features/cart/cart.store.ts), which adds up their
 * `quantity` properties with JavaScript's `+`.
 */
module CartFeature {
  import opened Wrappers
  import opened JsNumber
  import opened JsValue
  import opened LocalStorage

  /** The loop of `getCartItems`: one parsed value per readable cart entry, in key order. */
  function Items(s: Storage, c: Codec, keys: seq<string>): (items: seq<Value>)
    ensures |items| <= |keys|
  {
    if keys == [] then []
    else
      var k := keys[0];
      var rest := Items(s, c, keys[1..]);
      if !IsCartKey(k) || !Present(s, k) then rest
      else
        match c.parse(s[k])
        case None => rest
        case Some(v) => [v] + rest
  }

  /** `getCartItems()`: [] without a window. */
  function GetCartItems(w: Option<Storage>, c: Codec, keys: seq<string>): (items: seq<Value>)
    ensures w.None? ==> items == []
  {
    match w
    case None => []
    case Some(s) => Items(s, c, keys)
  }

  /** How many entries `getCartItems` keeps: the readable, parseable cart keys. */
  function Readable(s: Storage, c: Codec, keys: seq<string>): (n: nat)
  {
    if keys == [] then 0
    else
      var here := if IsCartKey(keys[0]) && Present(s, keys[0]) && c.parse(s[keys[0]]).Some? then 1 else 0;
      here + Readable(s, c, keys[1..])
  }

  /** One item per parseable cart entry: empty and malformed entries are skipped, not counted. */
  lemma {:induction false} OneItemPerReadableEntry(s: Storage, c: Codec, keys: seq<string>)
    ensures |Items(s, c, keys)| == Readable(s, c, keys)
  {
    if keys != [] {
      OneItemPerReadableEntry(s, c, keys[1..]);
    }
  }

  /** Each returned value is exactly what its entry parses to: no shape is checked. */
  lemma {:induction false} ItemsAreParsedEntries(s: Storage, c: Codec, keys: seq<string>, v: Value)
    requires v in Items(s, c, keys)
    ensures exists k :: k in keys && IsCartKey(k) && Present(s, k) && c.parse(s[k]) == Some(v)
  {
    var k := keys[0];
    if IsCartKey(k) && Present(s, k) && c.parse(s[k]) == Some(v) {
    } else {
      ItemsAreParsedEntries(s, c, keys[1..], v);
      var k' :| k' in keys[1..] && IsCartKey(k') && Present(s, k') && c.parse(s[k']) == Some(v);
      assert k' in keys;
    }
  }

  /** `items.reduce((sum, item) => sum + item.quantity, acc)`: reading a property of null throws. */
  function SumFrom(acc: Value, items: seq<Value>): (r: Result<Value, Thrown>)
    ensures (exists i :: 0 <= i < |items| && Nullish(items[i])) ==> r == Err(TypeError)
    decreases |items|
  {
    if items == [] then Ok(acc)
    else if Nullish(items[0]) then Err(TypeError)
    else SumFrom(Plus(acc, Get(items[0], "quantity")), items[1..])
  }

  /** `getCartCount()` of cart.store.ts. */
  function GetCartCount(w: Option<Storage>, c: Codec, keys: seq<string>): (r: Result<Value, Thrown>)
    ensures w.None? ==> r == Ok(Real(0.0))
  {
    SumFrom(Real(0.0), GetCartItems(w, c, keys))
  }

  /** Every item is an object whose quantity is a finite number. */
  predicate NumericQuantities(items: seq<Value>) {
    forall i :: 0 <= i < |items| ==>
      (items[i].Object? && Get(items[i], "quantity").Number? && Get(items[i], "quantity").n.Finite?)
  }

  /** Σ quantity over exact reals. */
  function QuantitySum(items: seq<Value>): real
    requires NumericQuantities(items)
  {
    if items == [] then 0.0 else Get(items[0], "quantity").n.r + QuantitySum(items[1..])
  }

  /** With numeric quantities the count is their sum. */
  lemma {:induction false} CountIsSum(acc: real, items: seq<Value>)
    requires NumericQuantities(items)
    ensures SumFrom(Real(acc), items) == Ok(Real(acc + QuantitySum(items)))
    decreases |items|
  {
    if items != [] {
      var q := Get(items[0], "quantity").n.r;
      assert Plus(Real(acc), Get(items[0], "quantity")) == Real(acc + q);
      CountIsSum(acc + q, items[1..]);
    }
  }

  /** With numeric quantities, `getCartCount` is the sum of the listed items' quantities. */
  lemma CountOfItems(s: Storage, c: Codec, keys: seq<string>)
    requires NumericQuantities(Items(s, c, keys))
    ensures GetCartCount(Some(s), c, keys) == Ok(Real(QuantitySum(Items(s, c, keys))))
  {
    var items := Items(s, c, keys);
    assert GetCartCount(Some(s), c, keys) == SumFrom(Real(0.0), items);
    CountIsSum(0.0, items);
  }

  /** Removing a key the list does not name leaves the items as they were. */
  lemma {:induction false} OtherKeyRemoved(s: Storage, c: Codec, keys: seq<string>, k: string)
    requires k !in keys
    ensures Items(s - {k}, c, keys) == Items(s, c, keys)
  {
    if keys != [] {
      OtherKeyRemoved(s, c, keys[1..], k);
    }
  }

  /** The quantity an entry adds to the count: 0 when `getCartItems` does not return it. */
  function EntryQuantity(s: Storage, c: Codec, keys: seq<string>, k: string): real {
    if k in keys && IsCartKey(k) && Present(s, k) && c.parse(s[k]).Some?
       && c.parse(s[k]).value.Object? && Get(c.parse(s[k]).value, "quantity").Number?
       && Get(c.parse(s[k]).value, "quantity").n.Finite?
    then Get(c.parse(s[k]).value, "quantity").n.r
    else 0.0
  }

  /** The first item and the rest both have numeric quantities when the whole list does. */
  lemma NumericSplit(v: seq<Value>, rest: seq<Value>)
    requires NumericQuantities(v + rest)
    ensures NumericQuantities(v) && NumericQuantities(rest)
  {
    assert forall i :: 0 <= i < |rest| ==> rest[i] == (v + rest)[|v| + i];
    assert forall i :: 0 <= i < |v| ==> v[i] == (v + rest)[i];
  }

  /** `localStorage.removeItem(k)` takes exactly that entry's quantity off the sum. */
  lemma {:induction false} RemovedQuantity(s: Storage, c: Codec, keys: seq<string>, k: string)
    requires forall i, j :: 0 <= i < j < |keys| ==> keys[i] != keys[j]
    requires NumericQuantities(Items(s, c, keys))
    ensures NumericQuantities(Items(s - {k}, c, keys))
    ensures QuantitySum(Items(s, c, keys)) == QuantitySum(Items(s - {k}, c, keys)) + EntryQuantity(s, c, keys, k)
    decreases |keys|
  {
    if keys == [] {
      return;
    }
    var k0, rest := keys[0], keys[1..];
    var here := if IsCartKey(k0) && Present(s, k0) && c.parse(s[k0]).Some? then [c.parse(s[k0]).value] else [];
    assert Items(s, c, keys) == here + Items(s, c, rest);
    NumericSplit(here, Items(s, c, rest));
    assert forall i, j :: 0 <= i < j < |rest| ==> rest[i] != rest[j] by {
      forall i, j | 0 <= i < j < |rest| ensures rest[i] != rest[j] {
        assert rest[i] == keys[i + 1] && rest[j] == keys[j + 1];
      }
    }
    if k0 == k {
      assert k !in rest by {
        forall i | 0 <= i < |rest| ensures rest[i] != k {
          assert rest[i] == keys[i + 1];
        }
      }
      OtherKeyRemoved(s, c, rest, k);
      assert Items(s - {k}, c, keys) == Items(s, c, rest);
      if here != [] {
        assert NumericQuantities(here);
        assert here[0] == c.parse(s[k]).value;
        assert here + Items(s, c, rest) == [here[0]] + Items(s, c, rest);
      }
    } else {
      RemovedQuantity(s, c, rest, k);
      assert Present(s - {k}, k0) == Present(s, k0);
      assert k0 in s - {k} ==> (s - {k})[k0] == s[k0];
      assert Items(s - {k}, c, keys) == here + Items(s - {k}, c, rest);
      NumericJoin(here, Items(s - {k}, c, rest));
      assert EntryQuantity(s, c, keys, k) == EntryQuantity(s, c, rest, k);
      if here != [] {
        assert [here[0]] + Items(s, c, rest) == here + Items(s, c, rest);
        assert [here[0]] + Items(s - {k}, c, rest) == here + Items(s - {k}, c, rest);
      }
    }
  }

  /** Putting numeric lists together keeps them numeric. */
  lemma NumericJoin(v: seq<Value>, rest: seq<Value>)
    requires NumericQuantities(v) && NumericQuantities(rest)
    ensures NumericQuantities(v + rest)
  {
    forall i | 0 <= i < |v + rest|
      ensures (v + rest)[i] == if i < |v| then v[i] else rest[i - |v|]
    {
    }
  }

  /** The key list once `k` is gone. */
  function DropKey(keys: seq<string>, k: string): (r: seq<string>)
    ensures forall x :: x in r <==> x in keys && x != k
  {
    if keys == [] then [] else (if keys[0] == k then [] else [keys[0]]) + DropKey(keys[1..], k)
  }

  /** A removed key that is still listed is passed over: the items are the same either way. */
  lemma {:induction false} DroppedKeySkipped(s: Storage, c: Codec, keys: seq<string>, k: string)
    ensures Items(s - {k}, c, DropKey(keys, k)) == Items(s - {k}, c, keys)
  {
    if keys != [] {
      var rest := keys[1..];
      DroppedKeySkipped(s, c, rest, k);
      if keys[0] == k {
        assert DropKey(keys, k) == DropKey(rest, k);
      } else {
        var d := [keys[0]] + DropKey(rest, k);
        assert DropKey(keys, k) == d;
        assert d[0] == keys[0] && d[1..] == DropKey(rest, k);
      }
    }
  }

  /**
   * `getCartCount()` before and after `localStorage.removeItem(k)`: with
   * numeric quantities the count drops by exactly that entry's quantity.
   */
  lemma RemovingLowersCount(s: Storage, c: Codec, keys: seq<string>, k: string)
    requires Enumerates(keys, s)
    requires NumericQuantities(Items(s, c, keys))
    ensures NumericQuantities(Items(s - {k}, c, DropKey(keys, k)))
    ensures GetCartCount(Some(s), c, keys) == Ok(Real(QuantitySum(Items(s, c, keys))))
    ensures GetCartCount(Some(s - {k}), c, DropKey(keys, k))
         == Ok(Real(QuantitySum(Items(s, c, keys)) - EntryQuantity(s, c, keys, k)))
  {
    var before, after := Items(s, c, keys), Items(s - {k}, c, keys);
    RemovedQuantity(s, c, keys, k);
    DroppedKeySkipped(s, c, keys, k);
    assert Items(s - {k}, c, DropKey(keys, k)) == after;
    CountOfItems(s, c, keys);
    CountOfItems(s - {k}, c, DropKey(keys, k));
  }

  /** An entry missing its quantity turns the count into NaN. */
  lemma MissingQuantityIsNaN()
    ensures SumFrom(Real(0.0), [Object(map[])]) == Ok(Number(NaN))
  {
  }

  /** A quantity stored as a string is concatenated, not added: 0 + "2" is "02". */
  lemma StringQuantityConcatenates()
    ensures SumFrom(Real(0.0), [Object(map["quantity" := Str("2")])]) == Ok(Str("02"))
  {
    var item := Object(map["quantity" := Str("2")]);
    assert Get(item, "quantity") == Str("2");
    assert FractionDigits(0.0, MaxFractionDigits) == "";
    assert NatToString(0) == "0";
    assert NonNegativeToString(0.0) == "0";
    assert ToStr(Real(0.0)) == "0";
    assert Plus(Real(0.0), Str("2")) == Str("02");
    assert SumFrom(Real(0.0), [item]) == SumFrom(Str("02"), []);
  }
}
