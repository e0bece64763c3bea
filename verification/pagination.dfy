/**
 * The page list and navigation links of the shop's pager
 * (src/components/ui/Pagination.tsx), and the current page the shop hands it.
 */
module Pagination {
  import opened Wrappers
  import opened JsNumber

  /**
   * `Number(searchParams.page) || 1`: the `page` query parameter as a number,
   * with 1 standing in for a missing parameter, NaN and 0. Anything else
   * passes through, fractions and infinities included.
   */
  function CurrentPage(page: Option<string>): (r: Num)
    ensures r != NaN && r != Finite(0.0)
    ensures page.None? ==> r == Finite(1.0)
    ensures page.Some? && StringToNumber(page.value) != NaN && StringToNumber(page.value) != Finite(0.0) ==>
      r == StringToNumber(page.value)
  {
    var n := if page.None? then NaN else StringToNumber(page.value);
    if n == NaN || n == Finite(0.0) then Finite(1.0) else n
  }

  /** A positive page number written in decimal comes back as that page. */
  lemma CurrentPageReadsNumber(n: nat)
    requires n >= 1
    ensures CurrentPage(Some(NatToString(n))) == FromInt(n)
  {
    NatRoundTrip(n);
  }

  /** One entry of the page list: a page number or the "..." marker. */
  datatype Entry = Page(n: Num) | Ellipsis

  /** JavaScript's `a <= b`: false whenever either side is NaN. */
  predicate AtMost(a: Num, b: Num) {
    a != NaN && b != NaN && !Less(b, a)
  }

  /** `[1, 2, ..., n]`, empty when n <= 0. */
  function Range(n: int): (r: seq<Entry>)
    ensures |r| == if n > 0 then n else 0
    ensures forall i :: 0 <= i < |r| ==> r[i] == Page(FromInt(i + 1))
  {
    if n <= 0 then [] else Range(n - 1) + [Page(FromInt(n))]
  }

  /** `getPageNumbers()` for the current page and the page count. */
  function PageNumbers(current: Num, total: int): (r: seq<Entry>)
    ensures |r| <= 7
    ensures |r| == 0 <==> total <= 0
    ensures r != [] ==> r[0] == Page(Finite(1.0)) && r[|r| - 1] == Page(FromInt(total))
    ensures total > 7 ==> Ellipsis in r
  {
    if total <= 7 then Range(total)
    else if AtMost(current, Finite(3.0)) then
      [Page(Finite(1.0)), Page(Finite(2.0)), Page(Finite(3.0)), Page(Finite(4.0)), Ellipsis, Page(FromInt(total))]
    else if AtMost(FromInt(total - 2), current) then
      [Page(Finite(1.0)), Ellipsis, Page(FromInt(total - 3)), Page(FromInt(total - 2)), Page(FromInt(total - 1)), Page(FromInt(total))]
    else
      [Page(Finite(1.0)), Ellipsis, Page(Sub(current, Finite(1.0))), Page(current), Page(Add(current, Finite(1.0))), Ellipsis, Page(FromInt(total))]
  }

  /** The page numbers of a list strictly increase from left to right, markers aside. */
  predicate PagesIncrease(entries: seq<Entry>) {
    forall i, j :: 0 <= i < j < |entries| && entries[i].Page? && entries[j].Page? ==> Less(entries[i].n, entries[j].n)
  }

  /** Up to seven pages, the list is every page from 1 to the page count. */
  lemma ShortListIsEveryPage(current: Num, total: int)
    requires total <= 7
    ensures PageNumbers(current, total) == Range(total)
    ensures forall k: int :: Page(FromInt(k)) in PageNumbers(current, total) <==> 1 <= k <= total
  {
    forall k: int | 1 <= k <= total
      ensures Page(FromInt(k)) in Range(total)
    {
      assert Range(total)[k - 1] == Page(FromInt(k));
    }
  }

  /**
   * Beyond seven pages the list has at most seven entries, starts at page 1,
   * ends at the last page, and its page numbers strictly increase, wherever
   * the current page lies: a fraction or an infinity included.
   */
  lemma LongListShape(current: Num, total: int)
    requires total > 7 && current != NaN
    ensures |PageNumbers(current, total)| <= 7
    ensures PageNumbers(current, total)[0] == Page(Finite(1.0))
    ensures PageNumbers(current, total)[|PageNumbers(current, total)| - 1] == Page(FromInt(total))
    ensures PagesIncrease(PageNumbers(current, total))
  {
    if !AtMost(current, Finite(3.0)) && !AtMost(FromInt(total - 2), current) {
      assert current.Finite?;
    }
  }

  /** A whole current page within range always appears in the list. */
  lemma CurrentIsListed(k: int, total: int)
    requires 1 <= k <= total
    ensures Page(FromInt(k)) in PageNumbers(FromInt(k), total)
  {
    if total <= 7 {
      ShortListIsEveryPage(FromInt(k), total);
    } else {
      var ps := PageNumbers(FromInt(k), total);
      if k <= 3 {
        assert ps[k - 1] == Page(FromInt(k));
      } else if k >= total - 2 {
        assert ps[k - total + 5] == Page(FromInt(k));
      }
    }
  }

  /** A fractional page among the first three is not in the list, so no page is marked current. */
  lemma FractionalPageUnlisted()
    ensures Page(Finite(2.5)) !in PageNumbers(Finite(2.5), 10)
    ensures forall e :: e in PageNumbers(Finite(2.5), 10) ==> e != Page(Finite(2.5))
  {
  }

  /** The previous/next links: whether each is disabled and which page it targets. */
  datatype Nav = Nav(prevDisabled: bool, prevPage: Num, nextDisabled: bool, nextPage: Num)

  /**
   * The two links target the pages either side of the current one; each is
   * disabled only when the current page is exactly its own end page.
   */
  function Navigation(current: Num, total: int): (nav: Nav)
    ensures current.Finite? ==> nav.prevPage == Finite(current.r - 1.0) && nav.nextPage == Finite(current.r + 1.0)
    ensures current.Infinity? ==> nav.prevPage == current && nav.nextPage == current
    ensures nav.prevDisabled <==> current == Finite(1.0)
    ensures nav.nextDisabled <==> current == FromInt(total)
  {
    Nav(current == Finite(1.0), Sub(current, Finite(1.0)), current == FromInt(total), Add(current, Finite(1.0)))
  }

  /**
   * On a whole page within range an enabled link never leaves the page range:
   * previous is disabled exactly on page 1 and next exactly on the last page.
   */
  lemma EnabledLinksStayInRange(k: int, total: int)
    requires 1 <= k <= total
    ensures Navigation(FromInt(k), total).prevDisabled <==> k == 1
    ensures Navigation(FromInt(k), total).nextDisabled <==> k == total
    ensures !Navigation(FromInt(k), total).prevDisabled ==> Navigation(FromInt(k), total).prevPage == FromInt(k - 1) && 1 <= k - 1 <= total
    ensures !Navigation(FromInt(k), total).nextDisabled ==> Navigation(FromInt(k), total).nextPage == FromInt(k + 1) && 1 <= k + 1 <= total
  {
  }

  /** The tests are equalities, so a page beyond the last keeps "next" enabled. */
  lemma NextEnabledPastTheEnd()
    ensures !Navigation(FromInt(5), 3).nextDisabled && Navigation(FromInt(5), 3).nextPage == FromInt(6)
  {
  }

  /** On page 1.5 "previous" is enabled and links to page 0.5. */
  lemma FractionalPageLeavesRange()
    ensures !Navigation(Finite(1.5), 3).prevDisabled && Navigation(Finite(1.5), 3).prevPage == Finite(0.5)
  {
  }
}
