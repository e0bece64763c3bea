/**
 * The two image galleries: src/components/ImageGalleryZoom.tsx (the older
 * one, with a clamped zoom position) and
 * src/components/product/ImageGalleryZoom.tsx (with a mobile zoom toggle).
 */
module Gallery {
  import opened Wrappers
  import opened JsNumber

  /** JavaScript's `a % b` for b != 0: the remainder takes the sign of the dividend. */
  function JsRem(a: int, b: int): int
    requires b != 0
  {
    if a >= 0 then a % b else -((-a) % b)
  }

  /** `setActive(i => (i + 1) % n)`; with no images the result is NaN (`None`). */
  function Next(i: int, n: nat): (r: Option<int>)
    ensures n > 0 && 0 <= i < n ==> r.Some? && 0 <= r.value < n
    ensures n > 0 && 0 <= i < n - 1 ==> r == Some(i + 1)
    ensures n > 0 && i == n - 1 ==> r == Some(0)
  {
    if n == 0 then None else Some(JsRem(i + 1, n))
  }

  /** `setActive(i => (i - 1 + n) % n)`; with no images the result is NaN (`None`). */
  function Prev(i: int, n: nat): (r: Option<int>)
    ensures n > 0 && 0 <= i < n ==> r.Some? && 0 <= r.value < n
    ensures n > 0 && 0 < i < n ==> r == Some(i - 1)
    ensures n > 0 && i == 0 ==> r == Some(n - 1)
  {
    if n == 0 then None else Some(JsRem(i - 1 + n, n))
  }

  /** `prev` undoes `next` and `next` undoes `prev` on every valid index. */
  lemma PrevNextInverse(i: int, n: nat)
    requires 0 <= i < n
    ensures Prev(Next(i, n).value, n) == Some(i)
    ensures Next(Prev(i, n).value, n) == Some(i)
  {
  }

  /** `k` presses of "next" from index i. */
  function NextTimes(i: int, n: nat, k: nat): (r: int)
    requires 0 <= i < n
    ensures 0 <= r < n
  {
    if k == 0 then i else Next(NextTimes(i, n, k - 1), n).value
  }

  /** Up to n presses of "next" from index i advance it by k, wrapping past the last image once. */
  lemma {:induction false} NextTimesWraps(i: int, n: nat, k: nat)
    requires 0 <= i < n && k <= n
    ensures NextTimes(i, n, k) == if i + k < n then i + k else i + k - n
  {
    if k > 0 {
      NextTimesWraps(i, n, k - 1);
    }
  }

  /** Pressing "next" once per image returns to the starting image. */
  lemma FullCycle(i: int, n: nat)
    requires 0 <= i < n
    ensures NextTimes(i, n, n) == i
  {
    NextTimesWraps(i, n, n);
  }

  /** `Math.max(0, Math.min(100, x))`, the older gallery's zoom clamp. */
  function Clamp(x: Num): (r: Num)
    ensures x.NaN? <==> r.NaN?
    ensures !x.NaN? ==> r.Finite? && 0.0 <= r.r <= 100.0
    ensures x.Finite? && 0.0 <= x.r <= 100.0 ==> r == x
  {
    Max(Finite(0.0), Min(Finite(100.0), x))
  }

  /** The position along one axis, in percent of the element: `(client - start) / size * 100`. */
  function Position(client: real, start: real, size: real): Num {
    Mul(Div(Finite(client - start), Finite(size)), Finite(100.0))
  }

  /** The older gallery clamps the cursor position into [0, 100] on each axis. */
  function ClampedPosition(client: real, start: real, size: real): (r: Num)
    ensures size > 0.0 ==> r.Finite? && 0.0 <= r.r <= 100.0
  {
    Clamp(Position(client, start, size))
  }

  /** The product gallery does not clamp: a cursor outside the box gives a position outside [0, 100]. */
  lemma ProductPositionUnclamped()
    ensures Position(150.0, 0.0, 100.0) == Finite(150.0)
    ensures ClampedPosition(150.0, 0.0, 100.0) == Finite(100.0)
  {
  }

  /** What the older gallery renders: a placeholder, or a "k / n" counter. */
  datatype OldView = NoImages | Counter(shown: int, total: int)

  function OldGalleryView(active: int, n: nat): (v: OldView)
    ensures n == 0 <==> v == NoImages
    ensures n > 0 && 0 <= active < n ==> v.Counter? && 1 <= v.shown <= v.total == n
  {
    if n == 0 then NoImages else Counter(active + 1, n)
  }

  /** What the product gallery renders: nothing for no images, arrows only for more than one. */
  datatype ProductView = Nothing | Shown(arrows: bool)

  function ProductGalleryView(n: nat): (v: ProductView)
    ensures n == 0 <==> v == Nothing
    ensures v.Shown? ==> (v.arrows <==> n > 1)
  {
    if n == 0 then Nothing else Shown(n > 1)
  }

  /** `toggleMobileZoom()`. */
  function ToggleMobileZoom(z: bool): (r: bool)
    ensures r != z
  {
    !z
  }

  /** Toggling the mobile zoom twice restores the flag. */
  lemma ToggleTwice(z: bool)
    ensures ToggleMobileZoom(ToggleMobileZoom(z)) == z
  {
  }
}
