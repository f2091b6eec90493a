/**
 * The checkout service as objects: the inventory table and the user directory
 * are collaborators with state of their own, and BookService runs each
 * attempt against them and wraps the attempts in the retry loop. Every method
 * is proved to do exactly what the function of module Checkout says.
 */
module Services {
  import opened Common
  import opened Entities
  import opened Failures
  import opened RetryPolicy
  import Checkout
  import CheckoutProperties

  /** The inventory table, with its scripted faults and call counts. */
  class InventoryRepository {
    var copies: map<Uuid, Inventory>
    var fetchFaults: Checkout.FaultScript
    var saveFaults: Checkout.FaultScript
    var fetches: nat
    var saves: nat

    ghost function State(): Checkout.Repository
      reads this
    {
      Checkout.Repository(copies, fetchFaults, saveFaults, fetches, saves)
    }

    constructor (copies: map<Uuid, Inventory>, fetchFaults: Checkout.FaultScript, saveFaults: Checkout.FaultScript)
      ensures State() == Checkout.Repository(copies, fetchFaults, saveFaults, 0, 0)
    {
      this.copies := copies;
      this.fetchFaults := fetchFaults;
      this.saveFaults := saveFaults;
      this.fetches := 0;
      this.saves := 0;
    }

    /** Fetches one copy by id under an exclusive row lock. */
    method FindByIdWithPessimisticLock(id: Uuid) returns (r: Result<Option<Inventory>, Exception>)
      modifies this
      ensures Checkout.After(State(), r) == Checkout.Fetch(old(State()), id)
    {
      var fault := Checkout.NextFault(fetchFaults);
      fetchFaults := Checkout.Advance(fetchFaults);
      fetches := fetches + 1;
      if fault.Some? {
        r := Err(Storage(fault.value));
      } else if id in copies {
        r := Ok(Some(copies[id]));
      } else {
        r := Ok(None);
      }
    }

    /** Writes a copy's row under its id. */
    method Save(inventory: Inventory) returns (r: Result<(), Exception>)
      modifies this
      ensures Checkout.After(State(), r) == Checkout.Persist(old(State()), inventory)
    {
      var fault := Checkout.NextFault(saveFaults);
      saveFaults := Checkout.Advance(saveFaults);
      saves := saves + 1;
      if fault.Some? {
        r := Err(Storage(fault.value));
      } else {
        copies := copies[inventory.id := inventory];
        r := Ok(());
      }
    }
  }

  /** The user directory, seen only through its lookup by id. */
  class UserService {
    var users: map<Uuid, User>
    var lookups: nat

    ghost function State(): Checkout.Directory
      reads this
    {
      Checkout.Directory(users, lookups)
    }

    constructor (users: map<Uuid, User>)
      ensures State() == Checkout.Directory(users, 0)
    {
      this.users := users;
      this.lookups := 0;
    }

    method GetUserById(id: Uuid) returns (r: Result<User, Exception>)
      modifies this
      ensures Checkout.After(State(), r) == Checkout.Lookup(old(State()), id)
    {
      lookups := lookups + 1;
      if id in users {
        r := Ok(users[id]);
      } else {
        r := Err(ResourceNotFound(UserResource, id));
      }
    }
  }

  class BookService {
    const inventoryRepository: InventoryRepository
    const userService: UserService

    ghost function Model(): Checkout.Backend
      reads this, inventoryRepository, userService
    {
      Checkout.Backend(inventoryRepository.State(), userService.State())
    }

    constructor (inventoryRepository: InventoryRepository, userService: UserService)
      ensures this.inventoryRepository == inventoryRepository && this.userService == userService
    {
      this.inventoryRepository := inventoryRepository;
      this.userService := userService;
    }

    /** One attempt at a borrow: fetch under lock, refuse a lent copy, look up the requester, record the loan, save. */
    method TryBorrow(request: Checkout.Request, now: Instant) returns (r: Result<(), Exception>)
      modifies inventoryRepository, userService
      ensures Checkout.After(Model(), r) == Checkout.BorrowAttempt(old(Model()), request, now)
    {
      var fetched := inventoryRepository.FindByIdWithPessimisticLock(request.inventoryId);
      if fetched.Err? {
        return Err(fetched.error);
      }
      if fetched.value.None? {
        return Err(ResourceNotFound(InventoryResource, request.inventoryId));
      }
      var inventory := fetched.value.value;
      if inventory.user.Some? {
        return Err(Conflict(AlreadyBorrowed));
      }
      var user := userService.GetUserById(request.userId);
      if user.Err? {
        return Err(user.error);
      }
      inventory := inventory.(user := Some(user.value));
      inventory := inventory.(loanDate := Some(now));
      r := inventoryRepository.Save(inventory);
    }

    /** One attempt at a return: fetch under lock, refuse a copy not on loan or held by someone else, clear the loan, save. */
    method TryReturn(request: Checkout.Request) returns (r: Result<(), Exception>)
      modifies inventoryRepository, userService
      ensures Checkout.After(Model(), r) == Checkout.ReturnAttempt(old(Model()), request)
    {
      var fetched := inventoryRepository.FindByIdWithPessimisticLock(request.inventoryId);
      if fetched.Err? {
        return Err(fetched.error);
      }
      if fetched.value.None? {
        return Err(ResourceNotFound(InventoryResource, request.inventoryId));
      }
      var inventory := fetched.value.value;
      if inventory.user.None? {
        return Err(Conflict(NotBorrowed));
      }
      if inventory.user.value.id != request.userId {
        return Err(Conflict(ReturnedByAnotherUser));
      }
      inventory := inventory.(user := None);
      inventory := inventory.(loanDate := None);
      r := inventoryRepository.Save(inventory);
    }

    /**
     * The retry loop around the attempts: an attempt that throws a lock or
     * data-access failure is followed by a back-off pause and a new attempt,
     * up to MaxAttempts attempts; `waits` are the pauses taken.
     */
    method Retry(op: Operation, request: Checkout.Request, now: Instant, draws: seq<Draw>)
      returns (r: Result<(), Exception>, waits: seq<nat>)
      modifies inventoryRepository, userService
      ensures Checkout.Run(Model(), r, waits) == Checkout.Retrying(op, old(Model()), request, now, draws, 0, [])
    {
      ghost var goal := Checkout.Retrying(op, Model(), request, now, draws, 0, []);
      var attempt := 0;
      waits := [];
      var done := false;
      r := Ok(());
      while !done
        invariant attempt < MaxAttempts
        invariant !done ==> Checkout.Retrying(op, Model(), request, now, draws, attempt, waits) == goal
        invariant done ==> Checkout.Run(Model(), r, waits) == goal
        decreases MaxAttempts - attempt, if done then 0 else 1
      {
        ghost var before := Model();
        match op {
          case Borrow => r := TryBorrow(request, now);
          case Return => r := TryReturn(request);
        }
        assert Checkout.After(Model(), r) == Checkout.Attempt(op, before, request, now);
        if r.Err? && Retryable(r.error) && attempt + 1 < MaxAttempts {
          waits := waits + [BackoffDelay(attempt, DrawAt(draws, attempt))];
          attempt := attempt + 1;
        } else {
          done := true;
        }
      }
    }

    /** borrowBook: the retried borrow, then recoverBorrowOperation on what is still thrown. */
    method BorrowBook(request: Checkout.Request, now: Instant, draws: seq<Draw>)
      returns (r: Result<(), Exception>, waits: seq<nat>)
      modifies inventoryRepository, userService
      ensures Checkout.Run(Model(), r, waits) == Checkout.Execute(Borrow, old(Model()), request, now, draws)
    {
      r, waits := Retry(Borrow, request, now, draws);
      if r.Err? {
        r := Err(Recover(Borrow, r.error));
      }
    }

    /** returnBook: the retried return, then recoverReturnOperation on what is still thrown. */
    method ReturnBook(request: Checkout.Request, draws: seq<Draw>)
      returns (r: Result<(), Exception>, waits: seq<nat>)
      modifies inventoryRepository, userService
      ensures Checkout.Run(Model(), r, waits) == Checkout.Execute(Return, old(Model()), request, 0, draws)
    {
      r, waits := Retry(Return, request, 0, draws);
      if r.Err? {
        r := Err(Recover(Return, r.error));
      }
    }
  }

  /**
   * Two lock failures, then a free copy: borrowBook succeeds after three
   * fetches and one save, and the saved row holds the requester and the loan date.
   */
  method RetriedBorrowSucceeds(copy: Inventory, user: User, now: Instant, draws: seq<Draw>)
    returns (r: Result<(), Exception>, fetches: nat, saves: nat, saved: Inventory)
    requires Available(copy)
    ensures r == Ok(()) && fetches == 3 && saves == 1
    ensures saved == copy.(user := Some(user), loanDate := Some(now))
  {
    var lockFailure := Some(PessimisticLockingFailure);
    var repository := new InventoryRepository(map[copy.id := copy], [lockFailure, lockFailure], []);
    var userService := new UserService(map[user.id := user]);
    var service := new BookService(repository, userService);
    ghost var before := service.Model();
    var request := Checkout.Request(user.id, copy.id);
    var waits;
    r, waits := service.BorrowBook(request, now, draws);
    CheckoutProperties.RetryThenSucceed(Borrow, before, request, now, draws,
                                        PessimisticLockingFailure, PessimisticLockingFailure);
    fetches := repository.fetches;
    saves := repository.saves;
    saved := repository.copies[copy.id];
  }

  /**
   * The lock is never obtained: returnBook gives up after three fetches,
   * saves nothing, leaves the copy as it was and throws "try again later".
   */
  method ReturnGivesUpAfterMaxAttempts(copy: Inventory, userId: Uuid, draws: seq<Draw>)
    returns (r: Result<(), Exception>, fetches: nat, saves: nat, kept: Inventory)
    ensures r == Err(Conflict(TryAgainLater(Return))) && fetches == 3 && saves == 0
    ensures kept == copy
  {
    var lockFailure := Some(PessimisticLockingFailure);
    var repository := new InventoryRepository(map[copy.id := copy], [lockFailure, lockFailure, lockFailure], []);
    var userService := new UserService(map[]);
    var service := new BookService(repository, userService);
    ghost var before := service.Model();
    var request := Checkout.Request(userId, copy.id);
    var waits;
    r, waits := service.ReturnBook(request, draws);
    CheckoutProperties.RetryExhausted(Return, before, request, 0, draws);
    fetches := repository.fetches;
    saves := repository.saves;
    kept := repository.copies[copy.id];
  }
}
