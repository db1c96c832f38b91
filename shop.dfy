/** The state of the shop page and the handlers that change it: the page
    controls, which all go through `handlePageChange`, and the "Add to Cart"
    handler, which runs the eligibility gate before appending to the cart. */
module ShopPage {
  import opened Wrappers
  import opened Pagination
  import opened Eligibility

  /** The pagination buttons: Previous, Next and one button per page number. */
  datatype Control = Previous | Next | Numbered(page: int)

  /** The notification the handler raises (`toast.info`, `toast.warning`,
      `toast.success`). */
  datatype Notice = Info | Warning | Success

  /** The views the handler navigates to. */
  datatype Route = LoginView | CartView

  /** The numbers on the page buttons, `Array.from({ length: totalPages })`
      mapped to `index + 1`: one button for each page 1 .. total and for no
      other page, in increasing order. */
  function PageButtons(total: nat): (r: seq<int>)
    ensures |r| == total
    ensures forall k :: k in r <==> 1 <= k <= total
    ensures forall i, j :: 0 <= i < j < |r| ==> r[i] < r[j]
  {
    var r := seq(total, index => index + 1);
    assert forall k | 1 <= k <= total :: k in r by {
      forall k | 1 <= k <= total
        ensures k in r
      {
        assert r[k - 1] == k;
      }
    }
    r
  }

  /** The controls are rendered only when the list is not empty and there is
      more than one page, that is, when there are more books than fit on one
      page. */
  predicate ControlsShown(length: nat)
    ensures ControlsShown(length) <==> length > BooksPerPage
  {
    length > 0 && TotalPages(length, BooksPerPage) > 1
  }

  /** Whether a control can be clicked: it must be rendered and not disabled.
      Previous is disabled on page 1, Next on the last page, and a numbered
      button exists only for the page numbers 1 .. totalPages. */
  predicate Enabled(c: Control, current: int, length: nat)
    ensures Enabled(c, current, length) ==> ControlsShown(length)
    ensures c.Numbered? ==>
              (Enabled(c, current, length) <==>
                 ControlsShown(length) && 1 <= c.page <= TotalPages(length, BooksPerPage))
  {
    ControlsShown(length) &&
    match c
    case Previous => current != 1
    case Next => current != TotalPages(length, BooksPerPage)
    case Numbered(k) => k in PageButtons(TotalPages(length, BooksPerPage))
  }

  /** The page a control passes to `handlePageChange`: Previous asks for an
      earlier page and Next for a later one, while a numbered button asks for
      its own number whatever the current page is. */
  function Requested(c: Control, current: int): (r: int)
    ensures c.Previous? ==> r < current
    ensures c.Next? ==> r > current
    ensures c.Numbered? ==> r == c.page
  {
    match c
    case Previous => current - 1
    case Next => current + 1
    case Numbered(k) => k
  }

  /** While the current page lies in 1 .. totalPages, every control that can
      be clicked asks for a page in that range as well. */
  lemma EnabledControlKeepsRange(c: Control, current: int, length: nat)
    requires 1 <= current <= TotalPages(length, BooksPerPage)
    requires Enabled(c, current, length)
    ensures 1 <= Requested(c, current) <= TotalPages(length, BooksPerPage)
  {
  }

  /** The range is kept only by disabling: Previous on page 1 would ask for
      page 0, which shows no book, and Next on the last page would ask for a
      page past the end, which shows none either. */
  lemma DisabledControlsWouldLeaveRange(books: seq<Book>)
    requires |books| > 0
    ensures !Enabled(Previous, 1, |books|)
    ensures Requested(Previous, 1) == 0 && PageSlice(books, 0, BooksPerPage) == []
    ensures !Enabled(Next, TotalPages(|books|, BooksPerPage), |books|)
    ensures PageSlice(books, Requested(Next, TotalPages(|books|, BooksPerPage)), BooksPerPage) == []
  {
  }

  /** The page's state: the fetched books, the current page and the cart that
      the cart context holds. */
  class Shop {
    var books: seq<Book>
    var currentPage: int
    var cart: seq<Book>

    /** The state right after the books have been fetched: page 1. */
    constructor (books: seq<Book>, cart: seq<Book>)
      ensures this.books == books && this.cart == cart && currentPage == 1
      ensures |books| > 0 ==> PageInRange()
    {
      this.books := books;
      this.cart := cart;
      currentPage := 1;
    }

    /** `totalPages` for the current list: the number of pages of 12 that
      hold all the books, 0 only for an empty list. */
    function PageCount(): (r: nat)
      reads this
      ensures (r - 1) * BooksPerPage < |books| <= r * BooksPerPage
      ensures r == 0 <==> |books| == 0
    {
      TotalPages(|books|, BooksPerPage)
    }

    /** `currentBooks`, the books rendered on the current page: from page 1
      on, the consecutive books of the list starting at position
      `(currentPage - 1) * 12`, all that remain there up to 12, and at least
      one while the page is in range. */
    function CurrentBooks(): (r: seq<Book>)
      reads this
      ensures currentPage >= 1 ==>
                var first := (currentPage - 1) * BooksPerPage;
                |r| == (if |books| <= first then 0
                        else if |books| - first <= BooksPerPage then |books| - first
                        else BooksPerPage)
      ensures currentPage >= 1 ==> forall i :: 0 <= i < |r| ==>
                (currentPage - 1) * BooksPerPage + i < |books| && r[i] == books[(currentPage - 1) * BooksPerPage + i]
      ensures 1 <= currentPage <= TotalPages(|books|, BooksPerPage) ==> r != []
    {
      PageSlice(books, currentPage, BooksPerPage)
    }

    /** The current page is one of the pages 1 .. totalPages. */
    predicate PageInRange()
      reads this
    {
      1 <= currentPage <= PageCount()
    }

    /** `handlePageChange`: takes the requested page as it is, with no range
      check; scrolling back to the top is left out. */
    method HandlePageChange(page: int)
      modifies this`currentPage
      ensures currentPage == page
    {
      currentPage := page;
    }

    /** A click on a pagination control: a control that is hidden or disabled
      does nothing, any other one calls `handlePageChange` with its page. The
      range of the current page is kept, and the page shown is never empty. */
    method Click(c: Control)
      modifies this`currentPage
      ensures currentPage == if Enabled(c, old(currentPage), |books|)
                             then Requested(c, old(currentPage)) else old(currentPage)
      ensures old(PageInRange()) ==> PageInRange() && CurrentBooks() != []
    {
      var wasInRange := PageInRange();
      if Enabled(c, currentPage, |books|) {
        if wasInRange {
          EnabledControlKeepsRange(c, currentPage, |books|);
        }
        HandlePageChange(Requested(c, currentPage));
      }
    }

    /** `handleAddToCart`: without a stored user it asks the visitor to log
      in; for the visitor's own book it warns; otherwise it appends the book
      to the cart once and goes to the cart. Only the last case changes the
      cart. */
    method HandleAddToCart(session: Session, book: Book) returns (outcome: Outcome, notice: Notice, route: Option<Route>)
      modifies this`cart
      ensures outcome == Decide(session, book)
      ensures cart == if outcome == Eligible then old(cart) + [book] else old(cart)
      ensures outcome == Unauthenticated ==> notice == Info && route == Some(LoginView)
      ensures outcome == SelfOwned ==> notice == Warning && route == None
      ensures outcome == Eligible ==> notice == Success && route == Some(CartView)
    {
      if session.None? {
        outcome, notice, route := Unauthenticated, Info, Some(LoginView);
        return;
      }
      var currentUser := session.value;
      if IsOwnBook(currentUser, book) {
        outcome, notice, route := SelfOwned, Warning, None;
        return;
      }
      cart := cart + [book];
      outcome, notice, route := Eligible, Success, Some(CartView);
    }
  }

  /** From a page before the last one, clicking Next and then Previous
      returns to the page one started from: both controls are enabled on the
      way. Nothing but the current page changes. */
  method NextThenPrevious(shop: Shop)
    requires 1 <= shop.currentPage < shop.PageCount()
    modifies shop`currentPage
    ensures shop.currentPage == old(shop.currentPage)
  {
    shop.Click(Next);
    shop.Click(Previous);
  }

  /** From a page after the first one, clicking Previous and then Next
      returns to the page one started from. */
  method PreviousThenNext(shop: Shop)
    requires 1 < shop.currentPage <= shop.PageCount()
    modifies shop`currentPage
    ensures shop.currentPage == old(shop.currentPage)
  {
    shop.Click(Previous);
    shop.Click(Next);
  }

  /** The scenario of a 25-book catalog: three pages; from the last page,
      Next and a button for page 4 are both unavailable, so the page stays 3. */
  method TwentyFiveBookScenario(books: seq<Book>) returns (pages: nat, last: seq<Book>, finalPage: int)
    requires |books| == 25
    ensures pages == 3
    ensures last == books[24..25]
    ensures finalPage == 3
  {
    TwentyFiveBooks(books);
    assert Enabled(Numbered(3), 1, 25);
    assert !Enabled(Next, 3, 25) && !Enabled(Numbered(4), 3, 25);
    var shop := new Shop(books, []);
    pages := shop.PageCount();
    shop.Click(Numbered(3));
    last := shop.CurrentBooks();
    shop.Click(Next);
    shop.Click(Numbered(4));
    finalPage := shop.currentPage;
  }
}
