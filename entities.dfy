/**
 * The persistent entities read and written by the checkout service and the
 * mapper: catalog titles, loanable copies and registered users.
 *
 * The object graph of the source is cyclic (a book lists its copies, a copy
 * points back to its book); a datatype value is a finite unfolding of it,
 * which is all any mapper reads.
 */
module Entities {
  import opened Common

  /** An opaque identity (a java.util.UUID); only equality is ever used. */
  type Uuid = nat

  /** A point in time, in milliseconds since the epoch. */
  type Instant = int

  /** A Java String that may be null. */
  type Text = Option<string>

  /** A catalog title with the copies that exist of it. */
  datatype Book = Book(id: Uuid, title: Text, author: Text, image: Text, inventories: seq<Inventory>)

  /** A registered user with the copies currently lent to them. */
  datatype User = User(id: Uuid, username: Text, password: Text, role: Text, inventories: seq<Inventory>)

  /** One loanable copy of a book; `user` and `loanDate` are null while it is on the shelf. */
  datatype Inventory = Inventory(id: Uuid, book: Option<Book>, user: Option<User>, loanDate: Option<Instant>)

  /** The copy is on the shelf: nobody holds it. */
  predicate Available(copy: Inventory) {
    copy.user.None?
  }

  /** The copy is either fully available or fully on loan: holder and loan date are set together. */
  predicate WellFormed(copy: Inventory) {
    copy.user.None? <==> copy.loanDate.None?
  }

  /** Every row of the inventory table is stored under its own id. */
  predicate Keyed(copies: map<Uuid, Inventory>) {
    forall id :: id in copies ==> copies[id].id == id
  }

  /** Every user of the directory is stored under its own id. */
  predicate UsersKeyed(users: map<Uuid, User>) {
    forall id :: id in users ==> users[id].id == id
  }
}
