/** The page-number control under the spend list: how many pages there
    are, which records a page shows, the Previous/Next buttons and the
    compact window of page buttons (`getPagination`). */
module Pagination {
  import opened Collections

  /** Records shown per page. */
  const PAGE_SIZE: nat := 12

  /** One button of the page control: a page number or the "..." marker. */
  datatype Token = Page(n: int) | Ellipsis

  // ---------------------------------------------------------------------
  // Page count and page contents
  // ---------------------------------------------------------------------

  /** `Math.ceil(n / PAGE_SIZE)`: the fewest pages that hold `n` records. */
  function TotalPages(n: nat): (t: nat)
    ensures n <= t * PAGE_SIZE
    ensures t == 0 || (t - 1) * PAGE_SIZE < n
    ensures t == 0 <==> n == 0
  {
    (n + PAGE_SIZE - 1) / PAGE_SIZE
  }

  /** How `Array.prototype.slice` turns an index into a position: negative
      indices count back from the end, and everything is clamped. */
  function SliceIndex(i: int, len: nat): (r: nat)
    ensures r <= len
    ensures 0 <= i <= len ==> r == i
  {
    if i < 0 then (if len + i < 0 then 0 else len + i)
    else if i > len then len
    else i
  }

  /** `s.slice(start, end)`. */
  function JsSlice<T>(s: seq<T>, start: int, end: int): seq<T>
  {
    var from := SliceIndex(start, |s|);
    var to := SliceIndex(end, |s|);
    if from < to then s[from..to] else []
  }

  /** The records on page `page` (1-based). */
  function PageSlice<T>(data: seq<T>, page: int): seq<T>
  {
    JsSlice(data, (page - 1) * PAGE_SIZE, page * PAGE_SIZE)
  }

  /** A page in range shows the block of at most PAGE_SIZE records starting at
      `(page - 1) * PAGE_SIZE`, and never an empty block. */
  lemma PageSliceInRange<T>(data: seq<T>, page: int)
    requires 1 <= page <= TotalPages(|data|)
    ensures PageSlice(data, page) == data[(page - 1) * PAGE_SIZE..Min(page * PAGE_SIZE, |data|)]
    ensures 1 <= |PageSlice(data, page)| <= PAGE_SIZE
  {
  }

  /** Pages 1..k one after another. */
  function PagesUpTo<T>(data: seq<T>, k: int): seq<T>
    decreases k
  {
    if k <= 0 then [] else PagesUpTo(data, k - 1) + PageSlice(data, k)
  }

  /** The first k pages are exactly the first `PAGE_SIZE * k` records. */
  lemma {:induction false} PagesUpToPrefix<T>(data: seq<T>, k: int)
    requires 0 <= k <= TotalPages(|data|)
    ensures PagesUpTo(data, k) == data[..Min(k * PAGE_SIZE, |data|)]
  {
    if k > 0 {
      PagesUpToPrefix(data, k - 1);
      PageSliceInRange(data, k);
      assert data[..Min((k - 1) * PAGE_SIZE, |data|)] + data[(k - 1) * PAGE_SIZE..Min(k * PAGE_SIZE, |data|)]
          == data[..Min(k * PAGE_SIZE, |data|)];
    }
  }

  /** Reading every page in turn shows every record once, in order. */
  lemma PagesCoverData<T>(data: seq<T>)
    ensures PagesUpTo(data, TotalPages(|data|)) == data
  {
    PagesUpToPrefix(data, TotalPages(|data|));
  }

  // ---------------------------------------------------------------------
  // Previous / Next and clicks on page buttons
  // ---------------------------------------------------------------------

  /** Previous: `Math.max(p - 1, 1)`. */
  function Prev(page: int): int
  {
    Max(page - 1, 1)
  }

  /** Next: `Math.min(p + 1, totalPages)`. */
  function Next(page: int, total: nat): int
  {
    Min(page + 1, total)
  }

  /** The Previous button is disabled on page 1. */
  predicate PrevDisabled(page: int) { page == 1 }

  /** The Next button is disabled on the last page. */
  predicate NextDisabled(page: int, total: nat) { page == total }

  /** The user's actions on the control. A click on "..." does nothing:
      the marker is a plain span. */
  datatype Action = PrevClick | NextClick | Click(token: Token)

  function Step(page: int, total: nat, a: Action): int
  {
    match a
    case PrevClick => Prev(page)
    case NextClick => Next(page, total)
    case Click(t) => if t.Page? then t.n else page
  }

  /** From a page in range, Previous and Next stay in range. */
  lemma PrevNextInRange(page: int, total: nat)
    requires 1 <= page <= total
    ensures 1 <= Prev(page) <= total
    ensures 1 <= Next(page, total) <= total
    ensures Prev(page) == page - 1 || page == 1
    ensures Next(page, total) == page + 1 || page == total
  {
  }

  /** A button is disabled exactly when pressing it would not change the page. */
  lemma DisabledExactlyWhenNoChange(page: int, total: nat)
    requires 1 <= page <= total
    ensures PrevDisabled(page) <==> Prev(page) == page
    ensures NextDisabled(page, total) <==> Next(page, total) == page
  {
  }

  /** Next undoes Previous and Previous undoes Next, away from the ends. */
  lemma PrevNextRoundTrip(page: int, total: nat)
    requires 1 <= page <= total
    ensures page < total ==> Prev(Next(page, total)) == page
    ensures 1 < page ==> Next(Prev(page), total) == page
  {
  }

  /** With no records there are no pages, and Next moves page 1 to page 0. */
  lemma NextWithoutPages()
    ensures TotalPages(0) == 0
    ensures Next(1, TotalPages(0)) == 0
    ensures !NextDisabled(1, TotalPages(0))
  {
  }

  /** Every action, including a click on any button that is shown, keeps
      the current page between 1 and the page count. */
  lemma StepStaysInRange(page: int, total: nat, a: Action)
    requires 1 <= page <= total
    requires a.Click? ==> a.token in GetPagination(total, page)
    ensures 1 <= Step(page, total, a) <= total
  {
    if a.Click? && a.token.Page? {
      var k :| 0 <= k < |GetPagination(total, page)| && GetPagination(total, page)[k] == a.token;
      PrefixPages(total, total, page);
    }
  }

  // ---------------------------------------------------------------------
  // The window of page buttons
  // ---------------------------------------------------------------------

  /** Page `i` gets a button: the first two pages, the last two, and the
      current page with its two neighbours. */
  predicate Kept(i: int, total: int, current: int)
  {
    i <= 2 || i > total - 2 || (current - 1 <= i && i <= current + 1)
  }

  /** Slot `i` shows "..." when its page is not kept. */
  predicate Gap(i: int, total: int, current: int)
  {
    (i == 3 && current > 4) || (i == total - 2 && current < total - 3)
  }

  /** What iteration `i` of the loop pushes. */
  function Slot(i: int, total: int, current: int): seq<Token>
  {
    if Kept(i, total, current) then [Page(i)]
    else if Gap(i, total, current) then [Ellipsis]
    else []
  }

  /** The tokens pushed by iterations 1..k. */
  function Prefix(k: int, total: int, current: int): seq<Token>
    decreases k
  {
    if k < 1 then [] else Prefix(k - 1, total, current) + Slot(k, total, current)
  }

  /** `getPagination()`: iterations 1..totalPages. */
  function GetPagination(total: int, current: int): seq<Token>
  {
    Prefix(total, total, current)
  }

  /** The loop of `getPagination`, statement by statement. */
  method Paginate(total: int, current: int) returns (pages: seq<Token>)
    ensures pages == GetPagination(total, current)
  {
    pages := [];
    var i := 1;
    while i <= total
      invariant 1 <= i
      invariant i <= total + 1 || i == 1
      invariant pages == Prefix(i - 1, total, current)
    {
      if i <= 2 || i > total - 2 || (i >= current - 1 && i <= current + 1) {
        pages := pages + [Page(i)];
      } else if (i == 3 && current > 4) || (i == total - 2 && current < total - 3) {
        pages := pages + [Ellipsis];
      }
      i := i + 1;
    }
  }

  /** Page numbers strictly increase along the sequence. */
  predicate PagesIncreasing(r: seq<Token>)
  {
    forall a, b :: 0 <= a < b < |r| && r[a].Page? && r[b].Page? ==> r[a].n < r[b].n
  }

  /** Numeric tokens of the first k iterations are increasing, lie in
      1..k and are exactly the kept pages up to k. */
  lemma {:induction false} PrefixPages(k: int, total: int, current: int)
    ensures PagesIncreasing(Prefix(k, total, current))
    ensures forall a :: 0 <= a < |Prefix(k, total, current)| && Prefix(k, total, current)[a].Page? ==>
      1 <= Prefix(k, total, current)[a].n <= k
    ensures forall p {:trigger Page(p) in Prefix(k, total, current)} ::
      Page(p) in Prefix(k, total, current) <==> 1 <= p <= k && Kept(p, total, current)
    ensures |Prefix(k, total, current)| <= Max(k, 0)
    decreases k
  {
    if k >= 1 {
      PrefixPages(k - 1, total, current);
      var prev := Prefix(k - 1, total, current);
      var r := Prefix(k, total, current);
      assert r == prev + Slot(k, total, current);
      forall p ensures Page(p) in r <==> 1 <= p <= k && Kept(p, total, current) {
        assert Page(p) in r <==> Page(p) in prev || Page(p) in Slot(k, total, current);
      }
    }
  }

  // --- positions: which slot produced which token -----------------------

  /** The index in the output at which slot `i`'s token (if any) lands. */
  function Pos(i: int, total: int, current: int): nat
  {
    |Prefix(i - 1, total, current)|
  }

  /** A slot that pushes a token finds it at its position. */
  lemma {:induction false} SlotAt(i: int, k: int, total: int, current: int)
    requires 1 <= i <= k
    requires Slot(i, total, current) != []
    ensures Pos(i, total, current) < |Prefix(k, total, current)|
    ensures Prefix(k, total, current)[Pos(i, total, current)] == Slot(i, total, current)[0]
    decreases k
  {
    if i < k {
      SlotAt(i, k - 1, total, current);
    }
  }

  /** Every token was pushed by some slot. */
  lemma {:induction false} SlotOf(j: int, k: int, total: int, current: int) returns (i: int)
    requires 0 <= j < |Prefix(k, total, current)|
    ensures 1 <= i <= k
    ensures Slot(i, total, current) != []
    ensures Pos(i, total, current) == j
    decreases k
  {
    if j < |Prefix(k - 1, total, current)| {
      i := SlotOf(j, k - 1, total, current);
    } else {
      i := k;
    }
  }

  /** Positions never decrease, and strictly increase past a slot that
      pushes a token. */
  lemma {:induction false} PosMonotone(i: int, j: int, total: int, current: int)
    requires 1 <= i <= j
    ensures Pos(i, total, current) <= Pos(j, total, current)
    ensures i < j && Slot(i, total, current) != [] ==> Pos(i, total, current) < Pos(j, total, current)
    decreases j
  {
    if i < j {
      PosMonotone(i, j - 1, total, current);
    }
  }

  /** Two neighbouring tokens come from slots `i < i2` with only silent
      slots between them. */
  lemma Neighbours(t: int, total: int, current: int) returns (i: int, i2: int)
    requires 0 <= t && t + 1 < |GetPagination(total, current)|
    ensures 1 <= i < i2 <= total
    ensures Slot(i, total, current) != [] && Slot(i2, total, current) != []
    ensures GetPagination(total, current)[t] == Slot(i, total, current)[0]
    ensures GetPagination(total, current)[t + 1] == Slot(i2, total, current)[0]
    ensures forall j :: i < j < i2 ==> Slot(j, total, current) == []
    ensures Pos(i, total, current) == t && Pos(i2, total, current) == t + 1
  {
    i := SlotOf(t, total, total, current);
    i2 := SlotOf(t + 1, total, total, current);
    SlotAt(i, total, total, current);
    SlotAt(i2, total, total, current);
    if i2 <= i {
      PosMonotone(i2, i, total, current);
      assert false;
    }
    forall j | i < j < i2 ensures Slot(j, total, current) == [] {
      if Slot(j, total, current) != [] {
        PosMonotone(i, j, total, current);
        PosMonotone(j, i2, total, current);
        assert false;
      }
    }
  }

  // --- slot-level facts --------------------------------------------------

  /** "..." is only ever pushed at slot 3 or slot totalPages - 2. */
  lemma EllipsisSlots(e: int, total: int, current: int)
    requires Slot(e, total, current) == [Ellipsis]
    ensures 3 <= e <= total - 2
    ensures (e == 3 && current > 4) || (e == total - 2 && current < total - 3)
  {
  }

  /** Between two kept pages that are not consecutive, with nothing kept
      right after the first, some slot pushes "...". */
  lemma GapHasEllipsis(a: int, b: int, total: int, current: int) returns (e: int)
    requires 1 <= a && a + 1 < b <= total
    requires Kept(a, total, current) && Kept(b, total, current)
    requires !Kept(a + 1, total, current)
    ensures a < e < b && Slot(e, total, current) == [Ellipsis]
  {
    if a + 1 < current - 1 {
      e := 3;
    } else {
      e := total - 2;
    }
  }

  /** Two "..." markers always have a kept page between them. */
  lemma KeptBetweenEllipses(e1: int, e2: int, total: int, current: int)
    requires e1 < e2
    requires Slot(e1, total, current) == [Ellipsis] && Slot(e2, total, current) == [Ellipsis]
    ensures e1 < current < e2 && Slot(current, total, current) == [Page(current)]
  {
  }

  // --- the properties of the window --------------------------------------

  /** The numeric buttons: increasing, within 1..totalPages, exactly the
      first two, the last two and the current page's neighbourhood; the
      list is empty without pages and otherwise runs from page 1 to the
      last page. */
  lemma PaginationPages(total: int, current: int)
    ensures PagesIncreasing(GetPagination(total, current))
    ensures forall a :: 0 <= a < |GetPagination(total, current)| && GetPagination(total, current)[a].Page? ==>
      1 <= GetPagination(total, current)[a].n <= total
    ensures forall p {:trigger Page(p) in GetPagination(total, current)} ::
      Page(p) in GetPagination(total, current) <==>
        1 <= p <= total && (p <= 2 || p > total - 2 || (current - 1 <= p && p <= current + 1))
    ensures total <= 0 ==> GetPagination(total, current) == []
    ensures total >= 1 ==> (GetPagination(total, current)[0] == Page(1)
      && GetPagination(total, current)[|GetPagination(total, current)| - 1] == Page(total))
  {
    PrefixPages(total, total, current);
    if total >= 1 {
      SlotAt(1, total, total, current);
      assert Pos(1, total, current) == 0;
    }
  }

  /** Neighbouring numeric buttons are consecutive pages. */
  predicate NoSilentSkip(r: seq<Token>)
  {
    forall t :: 0 <= t && t + 1 < |r| && r[t].Page? && r[t + 1].Page? ==> r[t + 1].n == r[t].n + 1
  }

  /** Every "..." sits between two numeric buttons that are at least two
      apart, so it stands for a non-empty run of hidden pages and no two
      markers touch; it is either the marker right after page 2, shown when
      the current page is past 4, or the one right before page total - 1,
      shown when the current page is before total - 3. */
  predicate EllipsesWellPlaced(r: seq<Token>, total: int, current: int)
  {
    forall t :: 0 <= t < |r| && r[t] == Ellipsis ==>
      && 0 < t < |r| - 1
      && r[t - 1].Page? && r[t + 1].Page?
      && r[t - 1].n + 1 < r[t + 1].n
      && ((r[t - 1] == Page(2) && current > 4) || (r[t + 1] == Page(total - 1) && current < total - 3))
  }

  /** No hidden page is skipped without a "..." in its place. */
  lemma PaginationConsecutive(total: int, current: int)
    ensures NoSilentSkip(GetPagination(total, current))
  {
    var r := GetPagination(total, current);
    forall t | 0 <= t && t + 1 < |r| && r[t].Page? && r[t + 1].Page?
      ensures r[t + 1].n == r[t].n + 1
    {
      ConsecutivePages(t, total, current);
    }
  }

  /** Each "..." replaces one maximal run of hidden pages. */
  lemma PaginationEllipses(total: int, current: int)
    ensures EllipsesWellPlaced(GetPagination(total, current), total, current)
  {
    var r := GetPagination(total, current);
    forall t | 0 <= t < |r| && r[t] == Ellipsis
      ensures 0 < t < |r| - 1 && r[t - 1].Page? && r[t + 1].Page? && r[t - 1].n + 1 < r[t + 1].n
      ensures (r[t - 1] == Page(2) && current > 4) || (r[t + 1] == Page(total - 1) && current < total - 3)
    {
      EllipsisAt(t, total, current);
    }
  }

  lemma ConsecutivePages(t: int, total: int, current: int)
    requires 0 <= t && t + 1 < |GetPagination(total, current)|
    requires GetPagination(total, current)[t].Page? && GetPagination(total, current)[t + 1].Page?
    ensures GetPagination(total, current)[t + 1].n == GetPagination(total, current)[t].n + 1
  {
    var i, i2 := Neighbours(t, total, current);
    if i2 > i + 1 {
      assert Slot(i + 1, total, current) == [];
      var e := GapHasEllipsis(i, i2, total, current);
      assert false;
    }
  }

  lemma EllipsisAt(t: int, total: int, current: int)
    requires 0 <= t < |GetPagination(total, current)|
    requires GetPagination(total, current)[t] == Ellipsis
    ensures 0 < t < |GetPagination(total, current)| - 1
    ensures GetPagination(total, current)[t - 1].Page? && GetPagination(total, current)[t + 1].Page?
    ensures GetPagination(total, current)[t - 1].n + 1 < GetPagination(total, current)[t + 1].n
    ensures (GetPagination(total, current)[t - 1] == Page(2) && current > 4)
         || (GetPagination(total, current)[t + 1] == Page(total - 1) && current < total - 3)
  {
    var r := GetPagination(total, current);
    var e := SlotOf(t, total, total, current);
    SlotAt(e, total, total, current);
    assert Slot(e, total, current) == [Ellipsis];
    EllipsisSlots(e, total, current);
    // page 1 comes before the marker and the last page after it
    PosMonotone(1, e, total, current);
    PosMonotone(e, total, total, current);
    SlotAt(total, total, total, current);
    var a, e1 := Neighbours(t - 1, total, current);
    var e2, b := Neighbours(t, total, current);
    assert e1 == e && e2 == e by {
      if e1 != e { PosMonotone(Min(e1, e), Max(e1, e), total, current); }
      if e2 != e { PosMonotone(Min(e2, e), Max(e2, e), total, current); }
    }
    if !Kept(a, total, current) {
      assert Slot(a, total, current) == [Ellipsis];
      KeptBetweenEllipses(a, e, total, current);
      assert false;
    }
    if !Kept(b, total, current) {
      assert Slot(b, total, current) == [Ellipsis];
      KeptBetweenEllipses(e, b, total, current);
      assert false;
    }
    if e == 3 && current > 4 {
      if a < 2 {
        assert false;
      }
    } else {
      if b > total - 1 {
        assert false;
      }
    }
  }

  /** Number of integers in lo..hi that are also in 1..k. */
  function CountIn(k: int, lo: int, hi: int): nat
  {
    var from := Max(lo, 1);
    var to := Min(hi, k);
    if from <= to then to - from + 1 else 0
  }

  /** The first k iterations push at most one token each, at most seven
      page numbers in all, and "..." at most once at slot 3 and once at
      slot totalPages - 2. */
  lemma {:induction false} PrefixLength(k: int, total: int, current: int)
    requires k <= total
    ensures |Prefix(k, total, current)| <= Max(k, 0)
    ensures multiset(Prefix(k, total, current))[Ellipsis]
      <= (if k >= 3 then 1 else 0) + (if 3 < total - 2 <= k then 1 else 0)
    ensures |Prefix(k, total, current)| <=
      CountIn(k, 1, 2) + CountIn(k, total - 1, total) + CountIn(k, current - 1, current + 1)
      + multiset(Prefix(k, total, current))[Ellipsis]
    decreases k
  {
    if k >= 1 {
      PrefixLength(k - 1, total, current);
      assert Prefix(k, total, current) == Prefix(k - 1, total, current) + Slot(k, total, current);
      if Slot(k, total, current) == [Ellipsis] {
        EllipsisSlots(k, total, current);
      }
    }
  }

  /** At most nine buttons and never more than there are pages; at most
      two of them are "...". */
  lemma PaginationLength(total: int, current: int)
    ensures |GetPagination(total, current)| <= Max(total, 0)
    ensures |GetPagination(total, current)| <= 9
    ensures multiset(GetPagination(total, current))[Ellipsis] <= 2
  {
    PrefixLength(total, total, current);
  }

  /** The two worked examples: 9 pages viewed from page 1 and from page 5. */
  lemma PaginationExamples()
    ensures GetPagination(9, 1) == [Page(1), Page(2), Ellipsis, Page(8), Page(9)]
    ensures forall i :: 3 <= i <= 6 ==> Slot(i, 9, 1) == []
    ensures Slot(7, 9, 1) == [Ellipsis]
    ensures GetPagination(9, 5) == [Page(1), Page(2), Ellipsis, Page(4), Page(5), Page(6), Ellipsis, Page(8), Page(9)]
  {
  }
}
