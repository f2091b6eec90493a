/**
 * Projections from entities to response shapes. Every projection maps null to
 * null, copies the fields its shape keeps, and maps nested lists element by
 * element, keeping their length and order.
 */
module LibraryMapper {
  import opened Common
  import opened Entities
  import opened Dtos

  function ToBookDto(book: Option<Book>): (r: Option<BookDto>)
    ensures r.None? <==> book.None?
    ensures r.Some? ==>
      r.value.id == book.value.id && r.value.title == book.value.title && r.value.image == book.value.image
  {
    match book
    case None => None
    case Some(b) => Some(BookDto(b.id, b.title, b.image))
  }

  function ToInventoryDto(inventory: Option<Inventory>): (r: Option<InventoryDto>)
    ensures r.None? <==> inventory.None?
    ensures r.Some? ==>
      && r.value.id == inventory.value.id
      && r.value.loanDate == inventory.value.loanDate
      && r.value.book == ToBookDto(inventory.value.book)
  {
    match inventory
    case None => None
    case Some(i) => Some(InventoryDto(i.id, i.loanDate, ToBookDto(i.book)))
  }

  /** The list projection of a user's copies: one InventoryDto per copy, in order. */
  function InventoryDtos(inventories: seq<Inventory>): (r: seq<InventoryDto>)
    ensures |r| == |inventories|
    ensures forall k :: 0 <= k < |r| ==> Some(r[k]) == ToInventoryDto(Some(inventories[k]))
  {
    if inventories == [] then []
    else [ToInventoryDto(Some(inventories[0])).value] + InventoryDtos(inventories[1..])
  }

  function ToUserDto(user: Option<User>): (r: Option<UserDto>)
    ensures r.None? <==> user.None?
    ensures r.Some? ==>
      && r.value.id == user.value.id
      && r.value.username == user.value.username
      && r.value.role == user.value.role
      && |r.value.inventories| == |user.value.inventories|
      && forall k :: 0 <= k < |r.value.inventories| ==>
           Some(r.value.inventories[k]) == ToInventoryDto(Some(user.value.inventories[k]))
  {
    match user
    case None => None
    case Some(u) => Some(UserDto(u.id, u.username, u.role, InventoryDtos(u.inventories)))
  }

  function ToInventoryUserDto(inventory: Option<Inventory>): (r: Option<InventoryUserDto>)
    ensures r.None? <==> inventory.None?
    ensures r.Some? ==>
      && r.value.id == inventory.value.id
      && r.value.loanDate == inventory.value.loanDate
      && r.value.user == ToUserDto(inventory.value.user)
      && (r.value.user.None? <==> inventory.value.user.None?)
  {
    match inventory
    case None => None
    case Some(i) => Some(InventoryUserDto(i.id, i.loanDate, ToUserDto(i.user)))
  }

  /** The list projection of a book's copies: one InventoryUserDto per copy, in order. */
  function InventoryUserDtos(inventories: seq<Inventory>): (r: seq<InventoryUserDto>)
    ensures |r| == |inventories|
    ensures forall k :: 0 <= k < |r| ==> Some(r[k]) == ToInventoryUserDto(Some(inventories[k]))
  {
    if inventories == [] then []
    else [ToInventoryUserDto(Some(inventories[0])).value] + InventoryUserDtos(inventories[1..])
  }

  function ToBookInventoryUserDto(book: Option<Book>): (r: Option<BookInventoryUserDto>)
    ensures r.None? <==> book.None?
    ensures r.Some? ==>
      && r.value.id == book.value.id
      && r.value.title == book.value.title
      && r.value.author == book.value.author
      && r.value.image == book.value.image
      && |r.value.inventories| == |book.value.inventories|
      && forall k :: 0 <= k < |r.value.inventories| ==>
           Some(r.value.inventories[k]) == ToInventoryUserDto(Some(book.value.inventories[k]))
  {
    match book
    case None => None
    case Some(b) =>
      Some(BookInventoryUserDto(b.id, b.title, b.author, b.image, InventoryUserDtos(b.inventories)))
  }

  /**
   * Mapping a list is compositional: the projection of a concatenation is the
   * concatenation of the projections. Both follow from the element-wise
   * contracts of the list projections.
   */
  lemma InventoryDtosAppend(xs: seq<Inventory>, ys: seq<Inventory>)
    ensures InventoryDtos(xs + ys) == InventoryDtos(xs) + InventoryDtos(ys)
  {
  }

  /** Same for the copies of a book with their holders. */
  lemma InventoryUserDtosAppend(xs: seq<Inventory>, ys: seq<Inventory>)
    ensures InventoryUserDtos(xs + ys) == InventoryUserDtos(xs) + InventoryUserDtos(ys)
  {
  }

  /** A user's projection never depends on the password: two users differing only there look the same. */
  lemma UserDtoHidesPassword(u: User, password: Text)
    ensures ToUserDto(Some(u.(password := password))) == ToUserDto(Some(u))
  {
  }

  /** A book's short projection does not depend on its author or its copies. */
  lemma BookDtoIgnoresAuthorAndCopies(b: Book, author: Text, inventories: seq<Inventory>)
    ensures ToBookDto(Some(b.(author := author, inventories := inventories))) == ToBookDto(Some(b))
  {
  }
}
