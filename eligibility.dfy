/** The add-to-cart eligibility gate of the shop page: a visitor must be
    signed in, and must not be the seller of the book. The same ownership
    test is written twice in the page, once in the click handler and once
    when the button is rendered; both are modelled and shown to agree. */
module Eligibility {
  import opened Wrappers

  /** An identifier as JavaScript holds it: a number or a string. */
  datatype Id = Num(n: int) | Str(s: string)

  /** The value of an id field: absent (`undefined`), `null`, or an id. */
  datatype JsId = Undefined | Null | Val(id: Id)

  /** The signed-in user record kept in local storage. */
  datatype StoredUser = StoredUser(userId: JsId)

  /** What reading the `user` key of local storage gives: `None` when nothing
      (or an empty string) is stored, so that `!user` holds. */
  type Session = Option<StoredUser>

  /** The nested seller record `book.user`. */
  datatype Seller = Seller(id: JsId)

  /** A book of the catalog, with the two places the seller's id may appear:
      nested in `user` (`None` when `book.user` is falsy) and flat in `userId`. */
  datatype Book = Book(id: JsId, title: string, user: Option<Seller>, userId: JsId)

  /** The result of one pass through the gate. */
  datatype Outcome = Unauthenticated | SelfOwned | Eligible

  /** JavaScript's `a === b` on two id fields: `undefined` equals only
      `undefined`, `null` only `null`, a number or string only the same number
      or string. On these values it is plain equality. */
  predicate StrictEquals(a: JsId, b: JsId)
    ensures StrictEquals(a, b) <==> a == b
  {
    match (a, b)
    case (Undefined, Undefined) => true
    case (Null, Null) => true
    case (Val(Num(x)), Val(Num(y))) => x == y
    case (Val(Str(x)), Val(Str(y))) => x == y
    case _ => false
  }

  /** The handler's own-book test (`isOwnBook` in `handleAddToCart`):
      `book.user` must be truthy, and then either the nested id or the flat
      `userId` must be `===` to the user's id. It is the render-time flag for
      a signed-in user, and it never holds for a book without a seller record. */
  predicate IsOwnBook(current: StoredUser, book: Book)
    ensures IsOwnBook(current, book) <==> RenderDisabled(Some(current), book)
    ensures book.user.None? ==> !IsOwnBook(current, book)
  {
    book.user.Some? &&
    (StrictEquals(book.user.value.id, current.userId) || StrictEquals(book.userId, current.userId))
  }

  /** The render-time flag `currentUser && book.user && (...)` that disables
      the "Add to Cart" button. It can hold only when a user is stored and the
      book has a seller record. */
  predicate RenderDisabled(session: Session, book: Book)
    ensures RenderDisabled(session, book) ==> session.Some? && book.user.Some?
  {
    match session
    case None => false
    case Some(current) =>
      match book.user
      case None => false
      case Some(seller) => StrictEquals(seller.id, current.userId) || StrictEquals(book.userId, current.userId)
  }

  /** The decision `handleAddToCart` takes, in the order of its checks. It is
      Unauthenticated exactly when no user is stored, and SelfOwned exactly
      when the rendered button for the book is disabled. */
  function Decide(session: Session, book: Book): (r: Outcome)
    ensures r == Unauthenticated <==> session.None?
    ensures r == SelfOwned <==> RenderDisabled(session, book)
  {
    if session.None? then Unauthenticated
    else if IsOwnBook(session.value, book) then SelfOwned
    else Eligible
  }

  /** Without a stored user every book is refused as unauthenticated,
      whoever sells it. */
  lemma AnonymousAlwaysRefused(book: Book)
    ensures Decide(None, book) == Unauthenticated
    ensures !RenderDisabled(None, book)
  {
  }

  /** A book without a nested `user` record is never the visitor's own, even
      when its flat `userId` matches. */
  lemma NoSellerRecordNeverOwn(current: StoredUser, book: Book)
    requires book.user.None?
    ensures Decide(Some(current), book) == Eligible
  {
  }

  /** A stored user record without `userId` owns every book that has a nested
      seller record whose `id`, or whose flat `userId`, is absent as well:
      `undefined === undefined` holds in JavaScript. */
  lemma MissingIdsMatch(book: Book)
    requires book.user.Some? && (book.user.value.id == Undefined || book.userId == Undefined)
    ensures Decide(Some(StoredUser(Undefined)), book) == SelfOwned
  {
  }

  /** `null` and `undefined` are different under `===`: a user record without
      `userId` does not own a book whose flat `userId` is `null`, and a
      `null` user id does not own a book whose flat `userId` is absent. */
  lemma NullIsNotUndefined(seller: Id)
    ensures Decide(Some(StoredUser(Undefined)), Book(Undefined, "", Some(Seller(Val(seller))), Null)) == Eligible
    ensures Decide(Some(StoredUser(Null)), Book(Undefined, "", Some(Seller(Val(seller))), Undefined)) == Eligible
  {
  }

  /** The id comparison is strict: the number 1 and the string "1" are
      different sellers. */
  lemma StrictIdComparison()
    ensures Decide(Some(StoredUser(Val(Num(1)))),
                   Book(Undefined, "", Some(Seller(Val(Str("1")))), Val(Str("1")))) == Eligible
  {
  }
}
