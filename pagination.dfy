/** Catalog pagination of the shop page: the visible page is a slice of the
    whole book list, taken with JavaScript's `Array.prototype.slice`, and the
    number of pages is the list length divided by the page size, rounded up. */
module Pagination {

  /** The shop shows this many books per page; it never changes. */
  const BooksPerPage: nat := 12

  /** Where a `slice` argument points before clipping: a negative argument
      counts back from the end of a list of `len` elements. */
  function Relative(i: int, len: nat): int
  {
    if i < 0 then len + i else i
  }

  /** How `slice` turns one argument into a position in a list of `len`
      elements: the relative position, clipped to `0 .. len`. A position
      already in range is kept as it is. */
  function ClipIndex(i: int, len: nat): (r: nat)
    ensures r <= len
    ensures 0 <= Relative(i, len) <= len ==> r == Relative(i, len)
  {
    if i < 0 then (if len + i < 0 then 0 else len + i)
    else if i > len then len
    else i
  }

  /** The clipped position is the point of `0 .. len` nearest to where the
      argument points. */
  lemma ClipIndexNearest(i: int, len: nat, j: int)
    requires 0 <= j <= len
    ensures var rel := Relative(i, len);
            var r := ClipIndex(i, len);
            (if r <= rel then rel - r else r - rel) <= (if j <= rel then rel - j else j - rel)
  {
  }

  /** `s.slice(start, end)`: the elements from the clipped start up to, but
      not including, the clipped end, in order; empty when the clipped end is
      not past the clipped start. */
  function JsSlice<T>(s: seq<T>, start: int, end: int): (r: seq<T>)
    ensures |r| <= |s|
    ensures ClipIndex(end, |s|) <= ClipIndex(start, |s|) ==> r == []
    ensures ClipIndex(start, |s|) < ClipIndex(end, |s|) ==>
              |r| == ClipIndex(end, |s|) - ClipIndex(start, |s|)
    ensures forall i :: 0 <= i < |r| ==>
              ClipIndex(start, |s|) + i < |s| && r[i] == s[ClipIndex(start, |s|) + i]
    ensures 0 <= start <= end ==>
              |r| == (if end <= |s| then end else |s|) - (if start <= |s| then start else |s|)
    ensures 0 <= start ==> forall i :: 0 <= i < |r| ==> start + i < |s| && r[i] == s[start + i]
  {
    var from := ClipIndex(start, |s|);
    var to := ClipIndex(end, |s|);
    if from < to then s[from..to] else []
  }

  /** `Math.ceil(length / perPage)`, the number of pages. */
  function TotalPages(length: nat, perPage: nat): (r: nat)
    requires perPage > 0
    ensures (r - 1) * perPage < length <= r * perPage
  {
    (length + perPage - 1) / perPage
  }

  /** A window of `width` positions from `first` on: the slice holds the
      books from `first` on, in order, as many as remain there, at most
      `width`. */
  lemma WindowSlice<T>(s: seq<T>, first: int, width: nat)
    ensures 0 <= first ==>
              var r := JsSlice(s, first, first + width);
              |r| == (if |s| <= first then 0 else if |s| - first <= width then |s| - first else width) &&
              forall i :: 0 <= i < |r| ==> first + i < |s| && r[i] == s[first + i]
  {
  }

  /** The books shown on `page`: the slice from `indexOfFirstBook` to
      `indexOfLastBook`. For a page from 1 on, it holds the books from
      position `(page - 1) * perPage` on, in their original order, and as
      many as remain there, at most `perPage`. */
  function PageSlice<T>(s: seq<T>, page: int, perPage: nat): (r: seq<T>)
    requires perPage > 0
    ensures page >= 1 ==>
              var first := (page - 1) * perPage;
              |r| == (if |s| <= first then 0 else if |s| - first <= perPage then |s| - first else perPage)
    ensures page >= 1 ==>
              forall i :: 0 <= i < |r| ==> (page - 1) * perPage + i < |s| && r[i] == s[(page - 1) * perPage + i]
  {
    var indexOfLastBook := page * perPage;
    var indexOfFirstBook := indexOfLastBook - perPage;
    assert indexOfFirstBook == (page - 1) * perPage;
    assert page >= 1 ==> 0 <= indexOfFirstBook;
    WindowSlice(s, indexOfFirstBook, perPage);
    JsSlice(s, indexOfFirstBook, indexOfLastBook)
  }

  /** The pages 1 .. `pages`, concatenated in page order. */
  function AllPages<T>(s: seq<T>, perPage: nat, pages: nat): seq<T>
    requires perPage > 0
  {
    if pages == 0 then [] else AllPages(s, perPage, pages - 1) + PageSlice(s, pages, perPage)
  }

  /** The end of the first `pages` pages: `pages * perPage`, clipped to the
      list length `len`. */
  function PrefixEnd(pages: int, perPage: nat, len: nat): (r: nat)
    requires pages >= 0
    ensures r <= len
    ensures pages <= 0 ==> r == 0
  {
    if pages * perPage <= len then pages * perPage else len
  }

  /** Page `page` (from 1 on) is exactly the sub-range of the list between the
      clipped bounds `(page - 1) * perPage` and `page * perPage`. */
  lemma PageSliceRange<T>(s: seq<T>, page: int, perPage: nat)
    requires perPage > 0 && page >= 1
    ensures var lo := PrefixEnd(page - 1, perPage, |s|);
            var hi := PrefixEnd(page, perPage, |s|);
            lo <= hi && PageSlice(s, page, perPage) == s[lo..hi]
  {
    assert page * perPage == (page - 1) * perPage + perPage;
  }

  /** Two adjacent ranges of a list, put together, make the longer prefix. */
  lemma PrefixThenRange<T>(s: seq<T>, lo: nat, hi: nat)
    requires lo <= hi <= |s|
    ensures s[..lo] + s[lo..hi] == s[..hi]
  {
  }

  /** The first `pages` pages, put together, are the list's prefix of
      `pages * perPage` books (or the whole list, if it is shorter). */
  lemma {:induction false} AllPagesPrefix<T>(s: seq<T>, perPage: nat, pages: nat)
    requires perPage > 0
    ensures AllPages(s, perPage, pages) == s[..PrefixEnd(pages, perPage, |s|)]
  {
    if pages > 0 {
      var lo := PrefixEnd(pages - 1, perPage, |s|);
      var hi := PrefixEnd(pages, perPage, |s|);
      AllPagesPrefix(s, perPage, pages - 1);
      PageSliceRange(s, pages, perPage);
      PrefixThenRange(s, lo, hi);
    }
  }

  /** Completeness and disjointness: the pages 1 .. totalPages, put together
      in order, give back the whole list, each book once and in place. */
  lemma PagesReconstructCatalog<T>(s: seq<T>, perPage: nat)
    requires perPage > 0
    ensures AllPages(s, perPage, TotalPages(|s|, perPage)) == s
  {
    var t := TotalPages(|s|, perPage);
    AllPagesPrefix(s, perPage, t);
    assert PrefixEnd(t, perPage, |s|) == |s|;
    assert s[..|s|] == s;
  }

  /** Every page from 1 to totalPages shows at least one book. */
  lemma PageNonEmpty<T>(s: seq<T>, page: int, perPage: nat)
    requires perPage > 0 && 1 <= page <= TotalPages(|s|, perPage)
    ensures |PageSlice(s, page, perPage)| > 0
  {
    var t := TotalPages(|s|, perPage);
    MulMonotone(page - 1, t - 1, perPage);
  }

  /** A page past totalPages shows nothing; it is not an error. */
  lemma PageBeyondEmpty<T>(s: seq<T>, page: int, perPage: nat)
    requires perPage > 0 && page > TotalPages(|s|, perPage)
    ensures PageSlice(s, page, perPage) == []
  {
    var t := TotalPages(|s|, perPage);
    assert t * perPage <= (page - 1) * perPage;
  }

  /** Multiplying by a page size keeps the order of page numbers. */
  lemma MulMonotone(a: int, b: int, perPage: nat)
    requires a <= b
    ensures a * perPage <= b * perPage
  {
  }

  /** Position `i` falls in the index range of page `page` exactly when
      `page` is `i / perPage + 1`. */
  lemma HomePage(i: nat, perPage: nat, page: int)
    requires perPage > 0 && page >= 1
    ensures (page - 1) * perPage <= i < page * perPage <==> page == i / perPage + 1
  {
    var q := i / perPage;
    assert q * perPage <= i < q * perPage + perPage;
    assert page * perPage == (page - 1) * perPage + perPage;
    if page - 1 < q {
      MulMonotone(page, q, perPage);
    } else if page - 1 > q {
      MulMonotone(q + 1, page - 1, perPage);
    }
  }

  /** A position of the list lies among the positions shown on a page exactly
      when it lies in that page's unclipped index range. */
  lemma ShownRange<T>(s: seq<T>, i: nat, perPage: nat, page: int)
    requires perPage > 0 && i < |s| && page >= 1
    ensures (page - 1) * perPage <= i < (page - 1) * perPage + |PageSlice(s, page, perPage)|
            <==> (page - 1) * perPage <= i < page * perPage
  {
  }

  /** Book `i` of the list is shown on page `i / perPage + 1`, at position
      `i % perPage`, and on no other page. */
  lemma BookOnOnePage<T>(s: seq<T>, i: nat, perPage: nat, page: int)
    requires perPage > 0 && i < |s| && page >= 1
    ensures var home := i / perPage + 1;
            i % perPage < |PageSlice(s, home, perPage)| && PageSlice(s, home, perPage)[i % perPage] == s[i]
    ensures (page - 1) * perPage <= i < (page - 1) * perPage + |PageSlice(s, page, perPage)|
            <==> page == i / perPage + 1
  {
    var home := i / perPage + 1;
    var first := (home - 1) * perPage;
    assert first + i % perPage == i;
    ShownRange(s, i, perPage, home);
    HomePage(i, perPage, home);
    ShownRange(s, i, perPage, page);
    HomePage(i, perPage, page);
  }

  /** The shop's own numbers: with 25 books there are 3 pages, holding
      books 0-11, 12-23 and 24. */
  lemma TwentyFiveBooks<T>(s: seq<T>)
    requires |s| == 25
    ensures TotalPages(|s|, BooksPerPage) == 3
    ensures PageSlice(s, 1, BooksPerPage) == s[0..12]
    ensures PageSlice(s, 2, BooksPerPage) == s[12..24]
    ensures PageSlice(s, 3, BooksPerPage) == s[24..25]
    ensures PageSlice(s, 4, BooksPerPage) == []
  {
  }
}
