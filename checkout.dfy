/**
 * The checkout controller as functions of the backend state: one attempt of
 * borrowBook or returnBook (fetch the copy under a row lock, check it, record
 * the change, save), the retry loop around it, and the recovery step.
 *
 * The backend is the inventory table, the user directory, the faults each
 * collaborator is scripted to throw on its next calls, and how often each
 * collaborator has been called.
 */
module Checkout {
  import opened Common
  import opened Entities
  import opened Failures
  import opened RetryPolicy

  /** A borrow or return request: who asks, for which copy. */
  datatype Request = Request(userId: Uuid, inventoryId: Uuid)

  /**
   * What a collaborator throws on its next calls: entry k is the fault of the
   * (k+1)-th next call, `None` for a call that goes through; calls past the end
   * go through.
   */
  type FaultScript = seq<Option<StorageError>>

  function NextFault(script: FaultScript): Option<StorageError> {
    if script == [] then None else script[0]
  }

  function Advance(script: FaultScript): FaultScript {
    if script == [] then [] else script[1..]
  }

  /** The inventory table with its scripted faults and call counts. */
  datatype Repository = Repository(
    copies: map<Uuid, Inventory>,
    fetchFaults: FaultScript,
    saveFaults: FaultScript,
    fetches: nat,
    saves: nat)

  /** The user directory and how often it was asked. */
  datatype Directory = Directory(users: map<Uuid, User>, lookups: nat)

  datatype Backend = Backend(repo: Repository, dir: Directory)

  /** The state of a collaborator after a call, and what the call returned or threw. */
  datatype After<S, T> = After(state: S, result: Result<T, Exception>)

  /** The locked fetch of one copy by id: throws the scripted fault, if any, else finds the row or not. */
  function Fetch(repo: Repository, id: Uuid): (a: After<Repository, Option<Inventory>>)
    ensures a.state == repo.(fetchFaults := Advance(repo.fetchFaults), fetches := repo.fetches + 1)
    ensures NextFault(repo.fetchFaults).Some? ==> a.result == Err(Storage(NextFault(repo.fetchFaults).value))
    ensures NextFault(repo.fetchFaults).None? ==>
      a.result == Ok(if id in repo.copies then Some(repo.copies[id]) else None)
  {
    var repo' := repo.(fetchFaults := Advance(repo.fetchFaults), fetches := repo.fetches + 1);
    match NextFault(repo.fetchFaults)
    case Some(e) => After(repo', Err(Storage(e)))
    case None => After(repo', Ok(if id in repo.copies then Some(repo.copies[id]) else None))
  }

  /** Saving a copy writes its row, under its id, unless the scripted fault makes the save throw. */
  function Persist(repo: Repository, inventory: Inventory): (a: After<Repository, ()>)
    ensures a.state.fetchFaults == repo.fetchFaults && a.state.fetches == repo.fetches
    ensures a.state.saveFaults == Advance(repo.saveFaults) && a.state.saves == repo.saves + 1
    ensures NextFault(repo.saveFaults).Some? ==>
      a.result == Err(Storage(NextFault(repo.saveFaults).value)) && a.state.copies == repo.copies
    ensures NextFault(repo.saveFaults).None? ==>
      a.result == Ok(()) && a.state.copies == repo.copies[inventory.id := inventory]
  {
    var repo' := repo.(saveFaults := Advance(repo.saveFaults), saves := repo.saves + 1);
    match NextFault(repo.saveFaults)
    case Some(e) => After(repo', Err(Storage(e)))
    case None => After(repo'.(copies := repo.copies[inventory.id := inventory]), Ok(()))
  }

  /** The user lookup: the user with that id, or a ResourceNotFoundException naming it. */
  function Lookup(dir: Directory, id: Uuid): (a: After<Directory, User>)
    ensures a.state == dir.(lookups := dir.lookups + 1)
    ensures id in dir.users ==> a.result == Ok(dir.users[id])
    ensures id !in dir.users ==> a.result == Err(ResourceNotFound(UserResource, id))
  {
    var dir' := dir.(lookups := dir.lookups + 1);
    if id in dir.users then After(dir', Ok(dir.users[id]))
    else After(dir', Err(ResourceNotFound(UserResource, id)))
  }

  /** Whether every check of the operation passes on the current table and directory. */
  predicate Permitted(op: Operation, b: Backend, req: Request)
    ensures Permitted(op, b, req) ==> req.inventoryId in b.repo.copies
    ensures Permitted(op, b, req) ==> (op.Borrow? <==> Available(b.repo.copies[req.inventoryId]))
  {
    && req.inventoryId in b.repo.copies
    && match op
       case Borrow => Available(b.repo.copies[req.inventoryId]) && req.userId in b.dir.users
       case Return =>
         && b.repo.copies[req.inventoryId].user.Some?
         && b.repo.copies[req.inventoryId].user.value.id == req.userId
  }

  /**
   * The exception of the first check that fails. The checks run in a fixed
   * order: the copy exists; then for a borrow it is on the shelf and the
   * requester exists, for a return it is on loan and held by the requester.
   */
  function Rejection(op: Operation, b: Backend, req: Request): (e: Exception)
    requires !Permitted(op, b, req)
    ensures ClientFacing(e)
    ensures req.inventoryId !in b.repo.copies <==> e == ResourceNotFound(InventoryResource, req.inventoryId)
  {
    if req.inventoryId !in b.repo.copies then ResourceNotFound(InventoryResource, req.inventoryId)
    else
      var copy := b.repo.copies[req.inventoryId];
      match op
      case Borrow => if copy.user.Some? then Conflict(AlreadyBorrowed) else ResourceNotFound(UserResource, req.userId)
      case Return => if copy.user.None? then Conflict(NotBorrowed) else Conflict(ReturnedByAnotherUser)
  }

  /**
   * The inventory table after a permitted operation: a borrow records the
   * requester as holder with loan date `now`, a return clears both; nothing
   * else of the copy, and no other copy, changes.
   */
  function Effect(op: Operation, b: Backend, req: Request, now: Instant): (r: map<Uuid, Inventory>)
    requires Permitted(op, b, req)
    ensures r.Keys == b.repo.copies.Keys
    ensures forall id :: id in r && id != req.inventoryId ==> r[id] == b.repo.copies[id]
    ensures r[req.inventoryId].id == b.repo.copies[req.inventoryId].id
    ensures r[req.inventoryId].book == b.repo.copies[req.inventoryId].book
    ensures op.Borrow? ==>
      r[req.inventoryId].user == Some(b.dir.users[req.userId]) && r[req.inventoryId].loanDate == Some(now)
    ensures op.Return? ==> r[req.inventoryId].user.None? && r[req.inventoryId].loanDate.None?
  {
    var copy := b.repo.copies[req.inventoryId];
    b.repo.copies[req.inventoryId :=
      match op
      case Borrow => copy.(user := Some(b.dir.users[req.userId]), loanDate := Some(now))
      case Return => copy.(user := None, loanDate := None)]
  }

  /** One run of the body of borrowBook. */
  function BorrowAttempt(b: Backend, req: Request, now: Instant): (a: After<Backend, ()>)
    ensures a.state.repo.fetches == b.repo.fetches + 1
    ensures a.state.repo.fetchFaults == Advance(b.repo.fetchFaults)
    ensures a.state.dir.users == b.dir.users
    ensures NextFault(b.repo.fetchFaults).Some? ==>
      && a.result == Err(Storage(NextFault(b.repo.fetchFaults).value))
      && a.state == b.(repo := b.repo.(fetchFaults := a.state.repo.fetchFaults, fetches := a.state.repo.fetches))
    ensures NextFault(b.repo.fetchFaults).None? && !Permitted(Borrow, b, req) ==>
      && a.result == Err(Rejection(Borrow, b, req))
      && a.state.repo == b.repo.(fetchFaults := a.state.repo.fetchFaults, fetches := a.state.repo.fetches)
      && a.state.dir.lookups == b.dir.lookups +
           (if req.inventoryId in b.repo.copies && Available(b.repo.copies[req.inventoryId]) then 1 else 0)
    ensures NextFault(b.repo.fetchFaults).None? && Permitted(Borrow, b, req) ==>
      && a.state.repo.saves == b.repo.saves + 1
      && a.state.repo.saveFaults == Advance(b.repo.saveFaults)
      && a.state.dir.lookups == b.dir.lookups + 1
      && (NextFault(b.repo.saveFaults).Some? ==>
            a.result == Err(Storage(NextFault(b.repo.saveFaults).value)) && a.state.repo.copies == b.repo.copies)
      && (NextFault(b.repo.saveFaults).None? ==>
            a.result == Ok(()) && (Keyed(b.repo.copies) ==> a.state.repo.copies == Effect(Borrow, b, req, now)))
  {
    var fetched := Fetch(b.repo, req.inventoryId);
    var b1 := b.(repo := fetched.state);
    if fetched.result.Err? then After(b1, Err(fetched.result.error))
    else if fetched.result.value.None? then After(b1, Err(ResourceNotFound(InventoryResource, req.inventoryId)))
    else
      var inventory := fetched.result.value.value;
      if inventory.user.Some? then After(b1, Err(Conflict(AlreadyBorrowed)))
      else
        var found := Lookup(b1.dir, req.userId);
        var b2 := b1.(dir := found.state);
        if found.result.Err? then After(b2, Err(found.result.error))
        else
          var saved := Persist(b2.repo, inventory.(user := Some(found.result.value), loanDate := Some(now)));
          After(b2.(repo := saved.state), saved.result)
  }

  /** One run of the body of returnBook. */
  function ReturnAttempt(b: Backend, req: Request): (a: After<Backend, ()>)
    ensures a.state.repo.fetches == b.repo.fetches + 1
    ensures a.state.repo.fetchFaults == Advance(b.repo.fetchFaults)
    ensures a.state.dir == b.dir
    ensures NextFault(b.repo.fetchFaults).Some? ==>
      && a.result == Err(Storage(NextFault(b.repo.fetchFaults).value))
      && a.state.repo == b.repo.(fetchFaults := a.state.repo.fetchFaults, fetches := a.state.repo.fetches)
    ensures NextFault(b.repo.fetchFaults).None? && !Permitted(Return, b, req) ==>
      && a.result == Err(Rejection(Return, b, req))
      && a.state.repo == b.repo.(fetchFaults := a.state.repo.fetchFaults, fetches := a.state.repo.fetches)
    ensures NextFault(b.repo.fetchFaults).None? && Permitted(Return, b, req) ==>
      && a.state.repo.saves == b.repo.saves + 1
      && a.state.repo.saveFaults == Advance(b.repo.saveFaults)
      && (NextFault(b.repo.saveFaults).Some? ==>
            a.result == Err(Storage(NextFault(b.repo.saveFaults).value)) && a.state.repo.copies == b.repo.copies)
      && (NextFault(b.repo.saveFaults).None? ==>
            a.result == Ok(()) && (Keyed(b.repo.copies) ==>
               forall now :: a.state.repo.copies == Effect(Return, b, req, now)))
  {
    var fetched := Fetch(b.repo, req.inventoryId);
    var b1 := b.(repo := fetched.state);
    if fetched.result.Err? then After(b1, Err(fetched.result.error))
    else if fetched.result.value.None? then After(b1, Err(ResourceNotFound(InventoryResource, req.inventoryId)))
    else
      var inventory := fetched.result.value.value;
      if inventory.user.None? then After(b1, Err(Conflict(NotBorrowed)))
      else if inventory.user.value.id != req.userId then After(b1, Err(Conflict(ReturnedByAnotherUser)))
      else
        var saved := Persist(b1.repo, inventory.(user := None, loanDate := None));
        After(b1.(repo := saved.state), saved.result)
  }

  function Attempt(op: Operation, b: Backend, req: Request, now: Instant): After<Backend, ()> {
    match op
    case Borrow => BorrowAttempt(b, req, now)
    case Return => ReturnAttempt(b, req)
  }

  /** A whole call: the final backend, what it returned or threw, and the pauses taken between attempts. */
  datatype Run = Run(backend: Backend, result: Result<(), Exception>, waits: seq<nat>)

  /**
   * The retry proxy: `attempt` attempts have already failed with a retryable
   * exception and `waits` holds the pauses taken after them. An attempt that
   * fails with a retryable exception is followed by a pause and another
   * attempt, until MaxAttempts attempts have been made.
   */
  function Retrying(op: Operation, b: Backend, req: Request, now: Instant, draws: seq<Draw>,
                    attempt: nat, waits: seq<nat>): (run: Run)
    requires attempt < MaxAttempts
    ensures |waits| <= |run.waits| < |waits| + MaxAttempts - attempt
    ensures run.waits[..|waits|] == waits
    ensures run.backend.dir.users == b.dir.users
    ensures run.backend.repo.fetches > b.repo.fetches
    decreases MaxAttempts - attempt
  {
    var a := Attempt(op, b, req, now);
    if a.result.Err? && Retryable(a.result.error) && attempt + 1 < MaxAttempts then
      Retrying(op, a.state, req, now, draws, attempt + 1, waits + [BackoffDelay(attempt, DrawAt(draws, attempt))])
    else
      Run(a.state, a.result, waits)
  }

  /**
   * borrowBook or returnBook as its callers see it: the retry loop, then the
   * recovery step on whatever was still thrown. `now` is the clock reading a
   * successful borrow records; `draws` are the random jitter draws.
   */
  function Execute(op: Operation, b: Backend, req: Request, now: Instant, draws: seq<Draw>): (run: Run)
    ensures run.result.Err? ==> ClientFacing(run.result.error)
  {
    var run := Retrying(op, b, req, now, draws, 0, []);
    if run.result.Err? then run.(result := Err(Recover(op, run.result.error))) else run
  }
}
