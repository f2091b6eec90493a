/**
 * What the checkout controller promises, proved about the functions of
 * module Checkout: the bound on attempts and pauses, that nothing is saved
 * unless the operation is permitted, the order of the checks, the retry
 * scenarios, mutual exclusion of borrowers and the borrow/return round trip.
 */
module CheckoutProperties {
  import opened Common
  import opened Entities
  import opened Failures
  import opened RetryPolicy
  import opened Checkout

  /** No collaborator is scripted to fail. */
  predicate NoFaults(b: Backend) {
    b.repo.fetchFaults == [] && b.repo.saveFaults == []
  }

  /** Every copy of the table is well formed. */
  predicate AllWellFormed(copies: map<Uuid, Inventory>) {
    forall id :: id in copies ==> WellFormed(copies[id])
  }

  /** The facts about a single attempt that the retry loop builds on, for either operation. */
  lemma AttemptFacts(op: Operation, b: Backend, req: Request, now: Instant)
    ensures var a := Attempt(op, b, req, now);
      && a.state.repo.fetches == b.repo.fetches + 1
      && a.state.repo.fetchFaults == Advance(b.repo.fetchFaults)
      && a.state.dir.users == b.dir.users
      && (a.result.Err? ==> a.state.repo.copies == b.repo.copies)
      && (a.result.Ok? ==>
            Permitted(op, b, req) && (Keyed(b.repo.copies) ==> a.state.repo.copies == Effect(op, b, req, now)))
      && (!Permitted(op, b, req) ==>
            && a.result.Err?
            && a.state.repo.saves == b.repo.saves
            && a.state.repo.saveFaults == b.repo.saveFaults
            && (ClientFacing(a.result.error) ==> a.result.error == Rejection(op, b, req)))
      && (NextFault(b.repo.fetchFaults).Some? ==>
            && a.result == Err(Storage(NextFault(b.repo.fetchFaults).value))
            && a.state.repo.saves == b.repo.saves
            && a.state.repo.saveFaults == b.repo.saveFaults
            && a.state.dir.lookups == b.dir.lookups)
      && (NextFault(b.repo.fetchFaults).None? && !Permitted(op, b, req) ==>
            a.result == Err(Rejection(op, b, req)))
  {
  }

  /** Permission, rejection and effect read only the table and the directory's users. */
  lemma SameView(op: Operation, b: Backend, b': Backend, req: Request, now: Instant)
    requires b'.repo.copies == b.repo.copies && b'.dir.users == b.dir.users
    ensures Permitted(op, b', req) == Permitted(op, b, req)
    ensures !Permitted(op, b, req) ==> Rejection(op, b', req) == Rejection(op, b, req)
    ensures Permitted(op, b, req) ==> Effect(op, b', req, now) == Effect(op, b, req, now)
  {
  }

  /** The pauses recorded are exactly the back-off delays, in order. */
  predicate PausesFollowSchedule(waits: seq<nat>, draws: seq<Draw>) {
    forall k :: 0 <= k < |waits| ==> waits[k] == BackoffDelay(k, DrawAt(draws, k))
  }

  /**
   * The retry loop, from any attempt on, fetches at most once per remaining
   * attempt, pauses on the back-off schedule before each further attempt, and
   * gives up on a retryable failure only after the last attempt.
   */
  lemma {:induction false} RetryingBound(op: Operation, b: Backend, req: Request, now: Instant,
                                         draws: seq<Draw>, attempt: nat, waits: seq<nat>)
    requires attempt < MaxAttempts
    requires |waits| == attempt && PausesFollowSchedule(waits, draws)
    ensures var run := Retrying(op, b, req, now, draws, attempt, waits);
      && b.repo.fetches + 1 <= run.backend.repo.fetches <= b.repo.fetches + (MaxAttempts - attempt)
      && |run.waits| == attempt + (run.backend.repo.fetches - b.repo.fetches - 1)
      && PausesFollowSchedule(run.waits, draws)
      && (run.result.Err? && Retryable(run.result.error) ==>
            run.backend.repo.fetches == b.repo.fetches + (MaxAttempts - attempt))
    decreases MaxAttempts - attempt
  {
    var a := Attempt(op, b, req, now);
    AttemptFacts(op, b, req, now);
    if a.result.Err? && Retryable(a.result.error) && attempt + 1 < MaxAttempts {
      var waits' := waits + [BackoffDelay(attempt, DrawAt(draws, attempt))];
      assert PausesFollowSchedule(waits', draws) by {
        forall k | 0 <= k < |waits'| ensures waits'[k] == BackoffDelay(k, DrawAt(draws, k)) {
          if k < |waits| { assert waits'[k] == waits[k]; }
        }
      }
      RetryingBound(op, a.state, req, now, draws, attempt + 1, waits');
    }
  }

  /**
   * The retry loop changes the table only by a successful attempt: when it
   * ends by throwing, the table is as it was; when it ends by returning, the
   * operation was permitted and exactly its effect was applied.
   */
  lemma {:induction false} RetryingFrame(op: Operation, b: Backend, req: Request, now: Instant,
                                         draws: seq<Draw>, attempt: nat, waits: seq<nat>)
    requires attempt < MaxAttempts
    ensures var run := Retrying(op, b, req, now, draws, attempt, waits);
      && run.backend.dir.users == b.dir.users
      && (run.result.Err? ==> run.backend.repo.copies == b.repo.copies)
      && (run.result.Ok? ==>
            Permitted(op, b, req) && (Keyed(b.repo.copies) ==> run.backend.repo.copies == Effect(op, b, req, now)))
    decreases MaxAttempts - attempt
  {
    var a := Attempt(op, b, req, now);
    AttemptFacts(op, b, req, now);
    if a.result.Err? && Retryable(a.result.error) && attempt + 1 < MaxAttempts {
      RetryingFrame(op, a.state, req, now, draws, attempt + 1, waits + [BackoffDelay(attempt, DrawAt(draws, attempt))]);
      SameView(op, b, a.state, req, now);
    }
  }

  /**
   * A request the checks refuse stays refused through every retry: the loop
   * never saves, and the only service exception it can end with is the
   * refusal of the first failing check.
   */
  lemma {:induction false} RetryingRefused(op: Operation, b: Backend, req: Request, now: Instant,
                                           draws: seq<Draw>, attempt: nat, waits: seq<nat>)
    requires attempt < MaxAttempts
    requires !Permitted(op, b, req)
    ensures var run := Retrying(op, b, req, now, draws, attempt, waits);
      && run.result.Err?
      && run.backend.repo.saves == b.repo.saves
      && (ClientFacing(run.result.error) ==> run.result.error == Rejection(op, b, req))
    decreases MaxAttempts - attempt
  {
    var a := Attempt(op, b, req, now);
    AttemptFacts(op, b, req, now);
    if a.result.Err? && Retryable(a.result.error) && attempt + 1 < MaxAttempts {
      SameView(op, b, a.state, req, now);
      RetryingRefused(op, a.state, req, now, draws, attempt + 1, waits + [BackoffDelay(attempt, DrawAt(draws, attempt))]);
    }
  }

  /**
   * A call makes at least one and at most MaxAttempts locked fetches, pauses
   * once between consecutive attempts and never longer than MaxDelay, leaves
   * the table untouched when it throws, and when it returns it has applied
   * exactly the effect of the permitted operation.
   */
  lemma ExecuteFacts(op: Operation, b: Backend, req: Request, now: Instant, draws: seq<Draw>)
    ensures var run := Execute(op, b, req, now, draws);
      && b.repo.fetches + 1 <= run.backend.repo.fetches <= b.repo.fetches + MaxAttempts
      && |run.waits| == run.backend.repo.fetches - b.repo.fetches - 1
      && PausesFollowSchedule(run.waits, draws)
      && (forall k :: 0 <= k < |run.waits| ==> run.waits[k] <= MaxDelay)
      && run.backend.dir.users == b.dir.users
      && (run.result.Err? ==> ClientFacing(run.result.error) && run.backend.repo.copies == b.repo.copies)
      && (run.result.Ok? ==>
            Permitted(op, b, req) && (Keyed(b.repo.copies) ==> run.backend.repo.copies == Effect(op, b, req, now)))
  {
    RetryingBound(op, b, req, now, draws, 0, []);
    RetryingFrame(op, b, req, now, draws, 0, []);
  }

  /**
   * A call the checks reject never saves and never changes the table; what the
   * caller sees is the rejection of the first failing check, or, if the storage
   * layer kept failing, a conflict asking to try again later.
   */
  lemma ExecuteRejected(op: Operation, b: Backend, req: Request, now: Instant, draws: seq<Draw>)
    requires !Permitted(op, b, req)
    ensures var run := Execute(op, b, req, now, draws);
      && run.backend.repo.saves == b.repo.saves
      && run.backend.repo.copies == b.repo.copies
      && (run.result == Err(Rejection(op, b, req)) || run.result == Err(Conflict(TryAgainLater(op))))
  {
    RetryingFrame(op, b, req, now, draws, 0, []);
    RetryingRefused(op, b, req, now, draws, 0, []);
  }

  /**
   * With no storage failure, one attempt decides the call: it succeeds exactly
   * when every check passes, saving once; otherwise it throws the rejection of
   * the first failing check and saves nothing. The user is looked up only for a
   * borrow of an existing copy that is on the shelf, after that check.
   */
  lemma ExecuteWithoutFaults(op: Operation, b: Backend, req: Request, now: Instant, draws: seq<Draw>)
    requires NoFaults(b) && Keyed(b.repo.copies)
    ensures var run := Execute(op, b, req, now, draws);
      && run.result == (if Permitted(op, b, req) then Ok(()) else Err(Rejection(op, b, req)))
      && run.backend.repo.fetches == b.repo.fetches + 1
      && run.backend.repo.saves == b.repo.saves + (if Permitted(op, b, req) then 1 else 0)
      && run.backend.repo.copies == (if Permitted(op, b, req) then Effect(op, b, req, now) else b.repo.copies)
      && run.backend.dir.lookups == b.dir.lookups +
           (if op == Borrow && req.inventoryId in b.repo.copies && Available(b.repo.copies[req.inventoryId])
            then 1 else 0)
      && run.waits == []
      && NoFaults(run.backend)
  {
    var a := Attempt(op, b, req, now);
    AttemptFacts(op, b, req, now);
    assert Retrying(op, b, req, now, draws, 0, []) == Run(a.state, a.result, []);
  }

  /** An attempt that throws anything not retried ends the call: one fetch, no pause, and the recovered exception. */
  lemma NonRetryableEndsCall(op: Operation, b: Backend, req: Request, now: Instant, draws: seq<Draw>)
    requires Attempt(op, b, req, now).result.Err?
    requires !Retryable(Attempt(op, b, req, now).result.error)
    ensures var run := Execute(op, b, req, now, draws);
      && run.result == Err(Recover(op, Attempt(op, b, req, now).result.error))
      && run.backend.repo.fetches == b.repo.fetches + 1
      && run.waits == []
  {
    AttemptFacts(op, b, req, now);
  }

  /**
   * Two lock failures, then a clean attempt: the call succeeds after exactly
   * three fetches, one save and two pauses.
   */
  lemma RetryThenSucceed(op: Operation, b: Backend, req: Request, now: Instant, draws: seq<Draw>,
                         e1: StorageError, e2: StorageError)
    requires Retryable(Storage(e1)) && Retryable(Storage(e2))
    requires b.repo.fetchFaults == [Some(e1), Some(e2)] && b.repo.saveFaults == []
    requires Permitted(op, b, req) && Keyed(b.repo.copies)
    ensures var run := Execute(op, b, req, now, draws);
      && run.result == Ok(())
      && run.backend.repo.fetches == b.repo.fetches + 3
      && run.backend.repo.saves == b.repo.saves + 1
      && run.backend.repo.copies == Effect(op, b, req, now)
      && run.waits == [BackoffDelay(0, DrawAt(draws, 0)), BackoffDelay(1, DrawAt(draws, 1))]
  {
    var a1 := Attempt(op, b, req, now);
    AttemptFacts(op, b, req, now);
    var a2 := Attempt(op, a1.state, req, now);
    AttemptFacts(op, a1.state, req, now);
    SameView(op, b, a1.state, req, now);
    var a3 := Attempt(op, a2.state, req, now);
    AttemptFacts(op, a2.state, req, now);
    SameView(op, b, a2.state, req, now);
    assert a2.state.repo.fetchFaults == [];
    assert a2.state.repo.saveFaults == [];
    assert a3.result == Ok(());
  }

  /**
   * Three lock or data-access failures in a row: the call gives up after
   * exactly three fetches and two pauses, saves nothing, never looks the user
   * up, and tells the caller to try again later.
   */
  lemma RetryExhausted(op: Operation, b: Backend, req: Request, now: Instant, draws: seq<Draw>)
    requires |b.repo.fetchFaults| >= 3
    requires forall k :: 0 <= k < 3 ==>
      b.repo.fetchFaults[k].Some? && Retryable(Storage(b.repo.fetchFaults[k].value))
    ensures var run := Execute(op, b, req, now, draws);
      && run.result == Err(Conflict(TryAgainLater(op)))
      && run.backend.repo.fetches == b.repo.fetches + 3
      && run.backend.repo.saves == b.repo.saves
      && run.backend.repo.copies == b.repo.copies
      && run.backend.dir.lookups == b.dir.lookups
      && |run.waits| == 2
  {
    var a1 := Attempt(op, b, req, now);
    AttemptFacts(op, b, req, now);
    assert a1.state.repo.fetchFaults == b.repo.fetchFaults[1..];
    var a2 := Attempt(op, a1.state, req, now);
    AttemptFacts(op, a1.state, req, now);
    assert a2.state.repo.fetchFaults == b.repo.fetchFaults[2..];
    var a3 := Attempt(op, a2.state, req, now);
    AttemptFacts(op, a2.state, req, now);
  }

  /**
   * Borrowers exclude each other: once a borrow of a copy has succeeded, every
   * later borrow of that copy, by anyone and whatever the storage layer does,
   * is refused as already borrowed or as unavailable, and saves nothing.
   */
  lemma SecondBorrowRejected(b: Backend, first: Request, now: Instant, draws: seq<Draw>,
                             second: Request, later: Instant, draws': seq<Draw>,
                             fetchFaults: FaultScript, saveFaults: FaultScript)
    requires Keyed(b.repo.copies)
    requires Execute(Borrow, b, first, now, draws).result.Ok?
    requires second.inventoryId == first.inventoryId
    ensures var b1 := Execute(Borrow, b, first, now, draws).backend;
      var b2 := b1.(repo := b1.repo.(fetchFaults := fetchFaults, saveFaults := saveFaults));
      var run := Execute(Borrow, b2, second, later, draws');
      && (run.result == Err(Conflict(AlreadyBorrowed)) || run.result == Err(Conflict(TryAgainLater(Borrow))))
      && run.backend.repo.saves == b2.repo.saves
      && run.backend.repo.copies == b1.repo.copies
  {
    var b1 := Execute(Borrow, b, first, now, draws).backend;
    ExecuteFacts(Borrow, b, first, now, draws);
    var b2 := b1.(repo := b1.repo.(fetchFaults := fetchFaults, saveFaults := saveFaults));
    assert b2.repo.copies[second.inventoryId].user.Some?;
    ExecuteRejected(Borrow, b2, second, later, draws');
  }

  /**
   * A return by the borrower right after their borrow succeeds and puts the
   * table back exactly as it was before the borrow.
   */
  lemma ReturnUndoesBorrow(b: Backend, req: Request, now: Instant, draws: seq<Draw>, draws': seq<Draw>)
    requires Keyed(b.repo.copies) && UsersKeyed(b.dir.users)
    requires req.inventoryId in b.repo.copies && WellFormed(b.repo.copies[req.inventoryId])
    requires Execute(Borrow, b, req, now, draws).result.Ok?
    ensures var b1 := Execute(Borrow, b, req, now, draws).backend;
      var b2 := b1.(repo := b1.repo.(fetchFaults := [], saveFaults := []));
      var run := Execute(Return, b2, req, now, draws');
      && run.result == Ok(())
      && run.backend.repo.copies == b.repo.copies
  {
    var b1 := Execute(Borrow, b, req, now, draws).backend;
    ExecuteFacts(Borrow, b, req, now, draws);
    var b2 := b1.(repo := b1.repo.(fetchFaults := [], saveFaults := []));
    assert Keyed(b2.repo.copies);
    assert Permitted(Return, b2, req);
    ExecuteWithoutFaults(Return, b2, req, now, draws');
    var copy := b.repo.copies[req.inventoryId];
    assert copy.user.None? && copy.loanDate.None?;
    assert Effect(Return, b2, req, now)[req.inventoryId] == copy;
  }

  /** Borrowing and returning keep every copy well formed and every row under its own id. */
  lemma ExecutePreservesWellFormed(op: Operation, b: Backend, req: Request, now: Instant, draws: seq<Draw>)
    requires Keyed(b.repo.copies) && AllWellFormed(b.repo.copies)
    ensures Keyed(Execute(op, b, req, now, draws).backend.repo.copies)
    ensures AllWellFormed(Execute(op, b, req, now, draws).backend.repo.copies)
  {
    ExecuteFacts(op, b, req, now, draws);
  }

  /**
   * Two users and one copy on the shelf: the first borrows it, the second is
   * refused, the first returns it, and then the second can borrow it.
   */
  lemma LendingScenario(b: Backend, copyId: Uuid, u1: Uuid, u2: Uuid, t1: Instant, t2: Instant, draws: seq<Draw>)
    requires NoFaults(b) && Keyed(b.repo.copies) && UsersKeyed(b.dir.users)
    requires copyId in b.repo.copies && Available(b.repo.copies[copyId])
    requires u1 in b.dir.users && u2 in b.dir.users && u1 != u2
    ensures var s1 := Execute(Borrow, b, Request(u1, copyId), t1, draws);
      var s2 := Execute(Borrow, s1.backend, Request(u2, copyId), t1, draws);
      var s3 := Execute(Return, s2.backend, Request(u1, copyId), t2, draws);
      var s4 := Execute(Borrow, s3.backend, Request(u2, copyId), t2, draws);
      && s1.result == Ok(())
      && s2.result == Err(Conflict(AlreadyBorrowed))
      && s3.result == Ok(())
      && Available(s3.backend.repo.copies[copyId])
      && s4.result == Ok(())
      && s4.backend.repo.copies[copyId].user == Some(b.dir.users[u2])
      && s4.backend.repo.copies[copyId].loanDate == Some(t2)
  {
    var s1 := Execute(Borrow, b, Request(u1, copyId), t1, draws);
    ExecuteWithoutFaults(Borrow, b, Request(u1, copyId), t1, draws);
    var s2 := Execute(Borrow, s1.backend, Request(u2, copyId), t1, draws);
    ExecuteWithoutFaults(Borrow, s1.backend, Request(u2, copyId), t1, draws);
    var s3 := Execute(Return, s2.backend, Request(u1, copyId), t2, draws);
    ExecuteWithoutFaults(Return, s2.backend, Request(u1, copyId), t2, draws);
    var s4 := Execute(Borrow, s3.backend, Request(u2, copyId), t2, draws);
    ExecuteWithoutFaults(Borrow, s3.backend, Request(u2, copyId), t2, draws);
  }
}
