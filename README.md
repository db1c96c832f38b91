# Shop page: catalog pagination and the add-to-cart gate

This project models the logic inside the `Shop` component of the second-hand
book marketplace front end
(`Frontend/Second-Hand-Buy-Sell-platform-For-Books/src/Component/Shop.js`).
The component does two things:

- **Pagination.** The catalog is cut into pages of 12 books. The visible page
  is `books.slice((currentPage - 1) * 12, currentPage * 12)`, and the page
  count is `Math.ceil(books.length / 12)`. Every page control calls
  `handlePageChange`, which stores the requested page with no range check.
  The page stays in range only because some controls are hidden or disabled:
  - Previous is disabled on page 1.
  - Next is disabled on the last page.
  - Numbered buttons exist only for pages 1 .. totalPages.
  - No control is rendered unless there are at least two pages.
- **The add-to-cart gate.** `handleAddToCart` runs three checks in order:
  1. With no stored user, it asks the visitor to log in and sends them to `/login`.
  2. For the visitor's own book, it warns and stops.
  3. Otherwise, it appends the book to the cart and goes to `/cart`.

  When the page is rendered, the same ownership test sets the button's
  `disabled` flag.

Files:

- `wrappers.dfy`: `Option`, for a stored user record that may be absent and
  for an object field that is only tested for truthiness.
- `pagination.dfy` (module `Pagination`):
  - JavaScript's `slice`, including negative indices and clipping.
  - `TotalPages` and `PageSlice`.
  - The concatenation of pages 1 .. n.
  - Lemmas: completeness and disjointness of pages, non-empty pages in range,
    empty pages past the end, and the 25-book example.
- `eligibility.dfy` (module `Eligibility`):
  - The book and stored-user records.
  - JavaScript `===` on id fields that may be `undefined` or `null`.
  - The handler's own-book test (line 64) and the render-time flag (line 134).
  - `Decide`, the gate itself.
  - Lemmas relating these.
- `shop.dfy` (module `ShopPage`):
  - The page controls and which of them can be clicked.
  - The class `Shop`, which holds `books`, `currentPage` and `cart`.
  - The methods `HandlePageChange`, `Click` and `HandleAddToCart`.

Details of JavaScript behaviour that the model keeps:

- An id field is `undefined` (absent), `null`, or a number or string id.
  `===` holds between two `undefined` fields and between two `null` fields,
  but never between `null` and `undefined`.
  - If the stored user record has no `userId`, every book with a nested `user`
    record is treated as the visitor's own whenever its nested `id` or its
    flat `userId` is absent as well (`Eligibility.MissingIdsMatch`).
  - A `null` id field does not match an absent one (`Eligibility.NullIsNotUndefined`).
- The flat `book.userId` is consulted only when `book.user` is truthy.
- A number id and a string id never match (`Eligibility.StrictIdComparison`).

The page range:

- `handlePageChange` (lines 49-52) accepts any page, and the model keeps that.
  The range 1 .. totalPages is kept only by the controls that can be clicked
  (`ShopPage.Shop.Click`). `ShopPage.DisabledControlsWouldLeaveRange` shows
  that the disabled buttons are what keep it.
- With an empty catalog the page is 1 and the total is 0. So the range
  invariant holds only for a non-empty catalog (`ShopPage.Shop.constructor`).

## Model

| member | source | states |
|---|---|---|
| `Pagination.ClipIndexNearest` | Frontend/Second-Hand-Buy-Sell-platform-For-Books/src/Component/Shop.js:46 | a `slice` bound, once a negative value has been counted back from the end, is clipped to the point of 0 .. length nearest to it |
| `Pagination.JsSlice` | Frontend/Second-Hand-Buy-Sell-platform-For-Books/src/Component/Shop.js:46 | for any bounds, the slice holds the elements from the clipped start, in order; it has clipped end minus clipped start of them, or none when the clipped end is not past the clipped start; for 0 <= start <= end that is min(end, L) - min(start, L) elements starting at `s[start]` |
| `Pagination.TotalPages` | Frontend/Second-Hand-Buy-Sell-platform-For-Books/src/Component/Shop.js:47 | the result r is the ceiling of L / perPage: (r - 1) * perPage < L <= r * perPage, so it is 0 exactly for an empty list |
| `Pagination.PageSlice` | Frontend/Second-Hand-Buy-Sell-platform-For-Books/src/Component/Shop.js:44-46 | for page p >= 1, the page has min(perPage, max(0, L - (p - 1) * perPage)) books, and book i of the page is book (p - 1) * perPage + i of the list |
| `Pagination.PageSliceRange` | Frontend/Second-Hand-Buy-Sell-platform-For-Books/src/Component/Shop.js:44-46 | page p >= 1 equals the sub-range of the list between the clipped bounds (p - 1) * perPage and p * perPage |
| `Pagination.AllPagesPrefix` | Frontend/Second-Hand-Buy-Sell-platform-For-Books/src/Component/Shop.js:44-47 | the first k pages, concatenated in order, are the prefix of the first min(k * perPage, L) books |
| `Pagination.PagesReconstructCatalog` | Frontend/Second-Hand-Buy-Sell-platform-For-Books/src/Component/Shop.js:44-47 | concatenating pages 1 .. totalPages gives back the list exactly: no gap, no overlap, order kept |
| `Pagination.PageNonEmpty` | Frontend/Second-Hand-Buy-Sell-platform-For-Books/src/Component/Shop.js:44-47 | every page from 1 to totalPages shows at least one book |
| `Pagination.PageBeyondEmpty` | Frontend/Second-Hand-Buy-Sell-platform-For-Books/src/Component/Shop.js:46-47 | a page past totalPages is the empty slice, not an error |
| `Pagination.BookOnOnePage` | Frontend/Second-Hand-Buy-Sell-platform-For-Books/src/Component/Shop.js:44-46 | book i of the list is shown on page i / perPage + 1 at position i % perPage, and page p covers position i exactly when p is that page |
| `Pagination.TwentyFiveBooks` | Frontend/Second-Hand-Buy-Sell-platform-For-Books/src/Component/Shop.js:14-47 | with 12 per page, 25 books give 3 pages: books 0-11, 12-23 and 24; page 4 is empty |
| `Eligibility.StrictEquals` | Frontend/Second-Hand-Buy-Sell-platform-For-Books/src/Component/Shop.js:64 | `===` on two id fields holds exactly when they are the same value: `undefined` matches only `undefined`, `null` only `null`, an id only the same number or the same string |
| `Eligibility.IsOwnBook` | Frontend/Second-Hand-Buy-Sell-platform-For-Books/src/Component/Shop.js:64 | the handler's own-book test holds exactly when the render-time flag holds for the same signed-in user; it never holds for a book without a truthy `user` |
| `Eligibility.RenderDisabled` | Frontend/Second-Hand-Buy-Sell-platform-For-Books/src/Component/Shop.js:132-134 | the button's disabled flag can hold only when a user is stored and the book has a truthy `user` record |
| `Eligibility.Decide` | Frontend/Second-Hand-Buy-Sell-platform-For-Books/src/Component/Shop.js:54-69 | the gate says Unauthenticated exactly when no user is stored, and SelfOwned exactly when the rendered button for that book is disabled (for the stored values the model represents, see Left out); otherwise it says Eligible |
| `Eligibility.AnonymousAlwaysRefused` | Frontend/Second-Hand-Buy-Sell-platform-For-Books/src/Component/Shop.js:55-59 | with no stored user, every book is refused as unauthenticated whoever its seller is, and its button is not disabled |
| `Eligibility.NoSellerRecordNeverOwn` | Frontend/Second-Hand-Buy-Sell-platform-For-Books/src/Component/Shop.js:64 | a book without a nested `user` record is eligible for any stored user, even if its flat `userId` matches |
| `Eligibility.MissingIdsMatch` | Frontend/Second-Hand-Buy-Sell-platform-For-Books/src/Component/Shop.js:64 | a stored user without `userId` owns every book with a nested seller record whose nested `id` or flat `userId` is absent too |
| `Eligibility.NullIsNotUndefined` | Frontend/Second-Hand-Buy-Sell-platform-For-Books/src/Component/Shop.js:64 | a `null` id and an absent id do not match in either direction, so such a book is eligible |
| `Eligibility.StrictIdComparison` | Frontend/Second-Hand-Buy-Sell-platform-For-Books/src/Component/Shop.js:64 | the number 1 and the string "1" are different ids, so such a book is eligible |
| `ShopPage.PageButtons` | Frontend/Second-Hand-Buy-Sell-platform-For-Books/src/Component/Shop.js:207-208 | there are totalPages numbered buttons, one for each page 1 .. totalPages and for no other page, in increasing order |
| `ShopPage.ControlsShown` | Frontend/Second-Hand-Buy-Sell-platform-For-Books/src/Component/Shop.js:180 | the controls are rendered exactly when there are more than 12 books |
| `ShopPage.Enabled` | Frontend/Second-Hand-Buy-Sell-platform-For-Books/src/Component/Shop.js:180-234 | only a rendered control can be clicked, and a numbered button can be clicked exactly for the pages 1 .. totalPages |
| `ShopPage.Requested` | Frontend/Second-Hand-Buy-Sell-platform-For-Books/src/Component/Shop.js:190-233 | Previous asks for an earlier page, Next for a later one, and a numbered button for its own number whatever the current page |
| `ShopPage.NextThenPrevious` | Frontend/Second-Hand-Buy-Sell-platform-For-Books/src/Component/Shop.js:189-234 | from a page before the last, a click on Next and then on Previous (both enabled on the way) brings the current page back to where it started |
| `ShopPage.PreviousThenNext` | Frontend/Second-Hand-Buy-Sell-platform-For-Books/src/Component/Shop.js:189-234 | from a page after the first, a click on Previous and then on Next brings the current page back to where it started |
| `ShopPage.EnabledControlKeepsRange` | Frontend/Second-Hand-Buy-Sell-platform-For-Books/src/Component/Shop.js:189-234 | when the current page is in 1 .. totalPages, every clickable control requests a page in 1 .. totalPages |
| `ShopPage.DisabledControlsWouldLeaveRange` | Frontend/Second-Hand-Buy-Sell-platform-For-Books/src/Component/Shop.js:189-234 | Previous on page 1 and Next on the last page are disabled; the pages they would request (0, and totalPages + 1) show no books |
| `ShopPage.Shop.constructor` | Frontend/Second-Hand-Buy-Sell-platform-For-Books/src/Component/Shop.js:11-13 | the page starts at 1 with the given books and cart; for a non-empty catalog that page is in range |
| `ShopPage.Shop.PageCount` | Frontend/Second-Hand-Buy-Sell-platform-For-Books/src/Component/Shop.js:47 | the number of pages is the ceiling of the book count / 12, and 0 exactly for an empty list |
| `ShopPage.Shop.CurrentBooks` | Frontend/Second-Hand-Buy-Sell-platform-For-Books/src/Component/Shop.js:44-46 | from page 1 on, the shown books are the consecutive books of the list from position (currentPage - 1) * 12, all that remain there up to 12 (min(12, max(0, L - (currentPage - 1) * 12)) of them), and at least one while the page is in range |
| `ShopPage.Shop.HandlePageChange` | Frontend/Second-Hand-Buy-Sell-platform-For-Books/src/Component/Shop.js:49-52 | the current page becomes the requested page, with no check; nothing else changes |
| `ShopPage.Shop.Click` | Frontend/Second-Hand-Buy-Sell-platform-For-Books/src/Component/Shop.js:180-234 | a hidden or disabled control leaves the page as it is; an enabled one moves to the page it requests; if the page was in 1 .. totalPages, it stays in range and the shown page is non-empty |
| `ShopPage.Shop.HandleAddToCart` | Frontend/Second-Hand-Buy-Sell-platform-For-Books/src/Component/Shop.js:54-74 | the outcome is the gate's decision; the cart gains the book exactly once when Eligible and is unchanged otherwise; the notice and route follow each outcome (info and /login, warning and no route, success and /cart) |
| `ShopPage.TwentyFiveBookScenario` | Frontend/Second-Hand-Buy-Sell-platform-For-Books/src/Component/Shop.js:180-234 | with 25 books there are 3 pages and page 3 holds only book 24; from page 3, neither Next nor a page-4 request can move the page, so it stays 3 |

## Left out

- Fetching the catalog and the `loading` flag (lines 28-41): this is I/O against
  an API that is not part of this model. The books are a fixed sequence given to
  the constructor. Replacing `books` after the first render is not modelled, and
  the controls are modelled as if loading were finished.
- Reading the stored user from local storage and `JSON.parse` (lines 55, 63,
  132-133): this is ambient storage and a foreign parser. The session is an
  explicit `Option` input.
  - A malformed stored record, which would make the parse throw, is not modelled.
  - A stored value that parses to a falsy value, that is `"null"`, `"0"`,
    `"false"` or `"\"\""`, is not modelled. For such a value the render-time
    flag is falsy, because `currentUser` is falsy, so the button is enabled.
    The handler behaves differently for a book with a truthy `user`. For `null`
    it throws on `currentUser.userId`. For `0`, `false` or `""` it reads an
    `undefined` `userId`, so a book whose nested `id` or flat `userId` is
    absent is refused as the visitor's own. For a book without a truthy
    `user`, the `&&` short-circuits and the book is added.
- Toasts, `navigate` and `window.scrollTo` (lines 51, 57-58, 67, 72-73): these
  are UI side effects. They appear only as the returned `Notice` and `Route`
  tags; the scroll is not recorded.
- `getImageUrl` and the internals of `useCart().addToCart`: these modules are
  not part of this model. The cart is a sequence that the add operation
  appends to.
- Category list and `selectedCategory` (lines 15, 19-26, 101-109): they change
  only the highlight and never filter the books.
- JSX markup and styles: presentation only. The books' other fields (author,
  price, image) are not carried, because no logic reads them.
- `Math.ceil` runs on floating point; the model uses exact integer ceiling
  division, which agrees for every list length a browser can hold.
- Eligibility.Decide: its agreement with the render-time flag holds only for
  the stored values the model represents: nothing stored, or a record
  object. It does not hold for a stored value that parses to `0`, `false` or
  `""`, for which the handler can refuse a book whose button is enabled.
- Id fields holding anything other than a number, a string, `null` or
  `undefined` (an object, a boolean) are not modelled.
