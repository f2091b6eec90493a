/**
 * What an attempt at borrowing or returning can throw: the service's own
 * ResourceNotFoundException and ConflictException, and the storage layer's
 * exceptions.
 */
module Failures {
  import opened Entities

  /** The two public operations of the checkout service. */
  datatype Operation = Borrow | Return

  /** What a ResourceNotFoundException names as missing. */
  datatype Resource = InventoryResource | UserResource

  /** The message a ConflictException carries. */
  datatype ConflictReason =
    | AlreadyBorrowed              // "Book is already borrowed"
    | NotBorrowed                  // "Book is not currently borrowed"
    | ReturnedByAnotherUser        // "Book can't be returned by another user"
    | TryAgainLater(op: Operation) // "Unable to complete <borrow|return> operation. Please try again later."

  /** A failure raised by the storage layer while an attempt runs. */
  datatype StorageError =
    | PessimisticLockingFailure    // the row lock could not be taken
    | DataAccessFailure            // any other data-access failure
    | UncheckedFailure             // a runtime failure outside the data-access hierarchy

  datatype Exception =
    | ResourceNotFound(resource: Resource, id: Uuid)
    | Conflict(reason: ConflictReason)
    | Storage(error: StorageError)

  /** The exceptions the service lets reach its callers. */
  predicate ClientFacing(e: Exception) {
    e.ResourceNotFound? || e.Conflict?
  }
}
