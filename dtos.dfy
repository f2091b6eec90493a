/** The response shapes the mapper projects the entities onto. */
module Dtos {
  import opened Common
  import opened Entities

  datatype BookDto = BookDto(id: Uuid, title: Text, image: Text)

  datatype InventoryDto = InventoryDto(id: Uuid, loanDate: Option<Instant>, book: Option<BookDto>)

  /** A user without their password. */
  datatype UserDto = UserDto(id: Uuid, username: Text, role: Text, inventories: seq<InventoryDto>)

  datatype InventoryUserDto = InventoryUserDto(id: Uuid, loanDate: Option<Instant>, user: Option<UserDto>)

  /** A book with its copies and their holders (also served as the book details). */
  datatype BookInventoryUserDto = BookInventoryUserDto(
    id: Uuid, title: Text, author: Text, image: Text, inventories: seq<InventoryUserDto>)
}
