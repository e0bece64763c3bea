/**
 * The cart counter behind the header badge. src/components/layout/Header.tsx
 * and src/components/Header.tsx carry two copies of the same `getCartCount`
 * and the same badge rule; both are modelled by the one definition here.
 */
module CartBadge {
  import opened Wrappers
  import opened JsNumber
  import opened JsValue
  import opened LocalStorage
  import CartStorage

  /** What one key adds to the count: 0 for an empty entry, 1 for an unparseable or quantity-less one. */
  function Contribution(s: Storage, c: Codec, k: string): (r: Option<Num>)
    ensures r.None? <==> !Present(s, k)
    ensures Present(s, k) && c.parse(s[k]).Some? && Get(c.parse(s[k]).value, "quantity").Number?
      ==> r == Some(Get(c.parse(s[k]).value, "quantity").n)
    ensures Present(s, k) && !(c.parse(s[k]).Some? && Get(c.parse(s[k]).value, "quantity").Number?)
      ==> r == Some(Finite(1.0))
  {
    if !Present(s, k) then None
    else
      match c.parse(s[k])
      case None => Some(Finite(1.0))
      case Some(v) =>
        var q := Get(v, "quantity");
        Some(if q.Number? then q.n else Finite(1.0))
  }

  /** The `reduce` over the already filtered cart keys. */
  function CountFrom(acc: Num, s: Storage, c: Codec, keys: seq<string>): Num
    decreases |keys|
  {
    if keys == [] then acc
    else
      match Contribution(s, c, keys[0])
      case None => CountFrom(acc, s, c, keys[1..])
      case Some(x) => CountFrom(Add(acc, x), s, c, keys[1..])
  }

  /** `getCartCount()`: 0 without a window, else the fold over the "cart_item_" keys. */
  function GetCartCount(w: Option<Storage>, c: Codec, keys: seq<string>): (n: Num)
    ensures w.None? ==> n == Finite(0.0)
  {
    match w
    case None => Finite(0.0)
    case Some(s) => CountFrom(Finite(0.0), s, c, CartKeys(keys))
  }

  /** Only cart keys contribute: the count is the same over the cart part of the storage. */
  lemma {:induction false} CountReadsOnlyCartKeys(acc: Num, s: Storage, c: Codec, keys: seq<string>)
    requires forall i :: 0 <= i < |keys| ==> IsCartKey(keys[i])
    ensures CountFrom(acc, s, c, keys) == CountFrom(acc, CartPart(s), c, keys)
    decreases |keys|
  {
    if keys != [] {
      assert Contribution(s, c, keys[0]) == Contribution(CartPart(s), c, keys[0]);
      match Contribution(s, c, keys[0])
      case None => CountReadsOnlyCartKeys(acc, s, c, keys[1..]);
      case Some(x) => CountReadsOnlyCartKeys(Add(acc, x), s, c, keys[1..]);
    }
  }

  /** A cart entry `CartStorage.getAll` reads with the same quantity the badge counts. */
  predicate WellFormedEntry(s: Storage, c: Codec, k: string) {
    Present(s, k) ==>
      && c.parse(s[k]).Some?
      && Get(c.parse(s[k]).value, "productId").Str?
      && var q := Get(c.parse(s[k]).value, "quantity");
         q.Number? || Nullish(q)
  }

  /**
   * When every cart entry carries a string productId and a numeric or absent
   * quantity, the badge shows `CartStorage.getCount()`.
   */
  lemma {:induction false} AgreesWithCartStorage(acc: Num, s: Storage, c: Codec, keys: seq<string>)
    requires forall i :: 0 <= i < |keys| ==> IsCartKey(keys[i]) && WellFormedEntry(s, c, keys[i])
    ensures CountFrom(acc, s, c, keys) == CartStorage.CountFrom(acc, CartStorage.Entries(s, keys, c))
    decreases |keys|
  {
    if keys != [] {
      var k := keys[0];
      if Present(s, k) {
        var v := c.parse(s[k]).value;
        var it := CartStorage.ReadEntry(c, s[k]).value;
        assert it.quantity == Contribution(s, c, k).value;
        AgreesWithCartStorage(Add(acc, it.quantity), s, c, keys[1..]);
      } else {
        AgreesWithCartStorage(acc, s, c, keys[1..]);
      }
    }
  }

  /** Where the counters part ways: an unparseable entry counts 1 here and 0 in `CartStorage.getCount()`. */
  lemma MalformedEntryCountsOne(c: Codec, k: string)
    requires IsCartKey(k) && c.parse("{").None?
    ensures GetCartCount(Some(map[k := "{"]), c, [k]) == Finite(1.0)
    ensures CartStorage.GetCount(Some(map[k := "{"]), [k], c) == Finite(0.0)
  {
    var s := map[k := "{"];
    assert CartKeys([k]) == [k];
    assert Contribution(s, c, k) == Some(Finite(1.0));
    assert CountFrom(Finite(0.0), s, c, [k]) == CountFrom(Finite(1.0), s, c, []);
    assert CartStorage.Entries(s, [k], c) == [];
  }

  /** The badge: hidden unless the count is positive, "9+" above nine. */
  function BadgeLabel(count: Num): (badge: Option<string>)
    ensures badge.Some? <==> Positive(count)
    ensures Less(Finite(9.0), count) ==> badge == Some("9+")
    ensures Positive(count) && count.Finite? && count.r <= 9.0 ==> badge == Some(NumberToString(count))
  {
    if !Positive(count) then None
    else if Less(Finite(9.0), count) then Some("9+")
    else Some(NumberToString(count))
  }

  /** A whole count from 1 to 9 shows as its single digit; any larger count as "9+". */
  lemma BadgeForWholeCounts(n: nat)
    ensures n == 0 ==> BadgeLabel(FromInt(n)) == None
    ensures 1 <= n <= 9 ==> BadgeLabel(FromInt(n)) == Some([DigitChar(n)])
    ensures n > 9 ==> BadgeLabel(FromInt(n)) == Some("9+")
  {
    if 1 <= n <= 9 {
      var x := n as real;
      assert x.Floor == n;
      assert x - x.Floor as real == 0.0;
      assert FractionDigits(0.0, MaxFractionDigits) == "";
      assert NonNegativeToString(x) == NatToString(n);
      assert NumberToString(FromInt(n)) == [DigitChar(n)];
    }
  }
}
