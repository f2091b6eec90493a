# Library checkout controller — a Dafny model

This project models the checkout core of a small library service: the
`BookService` operations `borrowBook` and `returnBook`, which move one
inventory copy between "on the shelf" and "on loan" under a pessimistic row
lock, the declarative retry policy around them (three attempts, exponential
back-off with jitter, retry only on lock and data-access failures), and the
recovery step that turns whatever is still thrown into what callers see. It
also models `LibraryMapper`, the pure projections from entities to response
shapes.

Layout (one module per file):

- `common.dfy` — `Option` (a nullable reference) and `Result` (a value or a thrown exception).
- `entities.dfy` — `Book`, `User`, `Inventory` as datatypes; `Available`, `WellFormed`, `Keyed`.
- `dtos.dfy` — the response shapes.
- `library_mapper.dfy` — the five projections and the list projections they use.
- `failures.dfy` — the exceptions: not found, the four conflict messages, storage failures.
- `retry_policy.dfy` — `MaxAttempts = 3`, delay 1000 ms, multiplier 2, cap 4000 ms, which exceptions are retried, the recovery step, the back-off delays.
- `checkout.dfy` — the pure specification: the backend (inventory table, user directory, scripted faults, call counters), one attempt of each operation, the retry loop (`Retrying`) and a whole call (`Execute`).
- `checkout_properties.dfy` — the lemmas: attempt bound, nothing saved on rejection, order of the checks, retry scenarios, mutual exclusion, round trip, well-formedness.
- `services.dfy` — the same service as objects: `InventoryRepository` and `UserService` hold mutable state, and `BookService` runs the attempts and the retry `while` loop. Each method is proved equal to its function in `Checkout`.

How the environment is represented:

- The repository is a map from copy id to copy.
- A locked fetch or a save may throw. What they throw is a parameter: a fault script, one entry per coming call, as a test stub would be programmed.
- Call counters record how many fetches, user lookups and saves were made, the quantities the service's tests check.
- The clock reading that a borrow records is a parameter `now`.
- The random jitter of each pause is a parameter: the 24-bit value u behind a random float u / 2^24 in [0, 1).

Behaviour of the code that the model keeps:

- A borrow also looks the requester up after the shelf check and can fail with "user not found" (`BookService.java:91`).
- Every exception other than the service's own not-found and conflict exceptions that is not a lock or data-access failure is recovered into the "try again later" conflict without retry (`BookService.java:143-163`), not surfaced as an unexpected error.
- A fetched copy is not checked to be well formed: return checks only the holder. The lemma `ExecutePreservesWellFormed` shows that the operations preserve the invariant.

Where the code does not compile as written, the model follows the evident intent:

- `toUserDTO` is declared over `AppUser`, while a copy's holder is a `User`. Here it takes a `User`; the two classes have the same fields.
- The service and the tests call `toBookDetailsDTO`, which does not exist. `toBookInventoryUserDTO` builds the same shape.
- `loanDate` is declared as `LocalDateTime` but assigned `Instant.now()`. Here it is an abstract `Instant`.

## Model

| member | source | states |
|---|---|---|
| `LibraryMapper.ToBookDto` | src/main/java/org/example/api/mapper/LibraryMapper.java:12-18 | null maps to null and only null; otherwise id, title and image are copied unchanged (a null image stays null) |
| `LibraryMapper.ToInventoryDto` | src/main/java/org/example/api/mapper/LibraryMapper.java:20-30 | null maps to null; id and loan date copied (null stays null); the book field is the book's own projection |
| `LibraryMapper.InventoryDtos` | src/main/java/org/example/api/mapper/LibraryMapper.java:41-43 | the list projection has the input's length and its k-th element is the projection of the k-th copy |
| `LibraryMapper.ToUserDto` | src/main/java/org/example/api/mapper/LibraryMapper.java:32-45 | null maps to null; id, username and role copied; copies projected element-wise, length and order kept, empty to empty |
| `LibraryMapper.ToInventoryUserDto` | src/main/java/org/example/api/mapper/LibraryMapper.java:47-57 | null maps to null; id and loan date copied; the user field is the holder's projection, null exactly when the copy has no holder |
| `LibraryMapper.InventoryUserDtos` | src/main/java/org/example/api/mapper/LibraryMapper.java:69-71 | the list projection has the input's length and its k-th element is the projection of the k-th copy |
| `LibraryMapper.ToBookInventoryUserDto` | src/main/java/org/example/api/mapper/LibraryMapper.java:59-73 | null maps to null; id, title, author and image copied; copies projected element-wise with their holders, length kept |
| `LibraryMapper.InventoryDtosAppend` | src/main/java/org/example/api/mapper/LibraryMapper.java:41-43 | projecting a concatenation of lists gives the concatenation of their projections |
| `LibraryMapper.InventoryUserDtosAppend` | src/main/java/org/example/api/mapper/LibraryMapper.java:69-71 | same compositionality for copies with their holders |
| `LibraryMapper.UserDtoHidesPassword` | src/main/java/org/example/api/mapper/LibraryMapper.java:37-44 | a user's projection does not depend on the password |
| `LibraryMapper.BookDtoIgnoresAuthorAndCopies` | src/main/java/org/example/api/mapper/LibraryMapper.java:17 | a book's short projection does not depend on author or copies |
| `RetryPolicy.Retryable` | src/main/java/org/example/api/service/BookService.java:60-62 | only lock and data-access failures are retried; a not-found or conflict exception never is |
| `RetryPolicy.Recover` | src/main/java/org/example/api/service/BookService.java:143-163 | not-found and conflict exceptions pass through unchanged; every other exception becomes the "try again later" conflict of that operation; the result is always one of the two |
| `RetryPolicy.Interval` | src/main/java/org/example/api/service/BookService.java:63-68 | the interval before jitter for each pause is at least 1000 ms and at most 4000 ms |
| `RetryPolicy.IntervalBounds` | src/main/java/org/example/api/service/BookService.java:63-68 | the k-th interval is min(1000·2^k, 4000) ms, and intervals never decrease |
| `RetryPolicy.BackoffDelay` | src/main/java/org/example/api/service/BookService.java:63-68 | a jittered pause is a whole number of milliseconds, at least its interval, below twice its interval, and never above 4000 ms |
| `RetryPolicy.DelayReachable` | src/main/java/org/example/api/service/BookService.java:63-68 | every whole number of milliseconds between an interval and the smaller of twice the interval and 4000 ms is the pause for some draw |
| `RetryPolicy.PauseWindows` | src/main/java/org/example/api/service/BookService.java:63-68 | the first pause lies in [1000, 2000) ms, the second in [2000, 4000) ms, and every whole number of milliseconds in each window is the pause for some draw |
| `Checkout.Fetch` | src/main/java/org/example/api/service/BookService.java:80-84 | a locked fetch counts one call and either throws the scripted fault or returns the row of that id, none if absent |
| `Checkout.Persist` | src/main/java/org/example/api/service/BookService.java:95 | a save counts one call and either throws the scripted fault, leaving the table as it was, or writes the row under its id |
| `Checkout.Lookup` | src/main/java/org/example/api/service/UserService.java:21-28 | the user lookup returns the user with that id or throws not-found naming the id |
| `Checkout.Permitted` | src/main/java/org/example/api/service/BookService.java:80-135 | the conjunction of an operation's checks: it holds only for an existing copy, and then the copy is on the shelf exactly when the operation is a borrow (a return needs the copy on loan) |
| `Checkout.Effect` | src/main/java/org/example/api/service/BookService.java:93-95 | a permitted operation rewrites only the requested copy, keeping its id and book and every other row: a borrow sets holder and loan date `now`, a return clears both (lines 137-139) |
| `Checkout.Rejection` | src/main/java/org/example/api/service/BookService.java:119-135 | the first failing check decides the exception, and a missing copy is reported as such exactly when the copy is absent |
| `Checkout.BorrowAttempt` | src/main/java/org/example/api/service/BookService.java:71-97 | one fetch per attempt; missing copy, lent copy, unknown user are refused in that order with no save; the user is looked up only for a copy on the shelf; success saves once and records holder and `now` |
| `Checkout.ReturnAttempt` | src/main/java/org/example/api/service/BookService.java:110-141 | one fetch per attempt; missing copy, copy not on loan, other holder are refused in that order with no save; success saves once and clears holder and loan date |
| `Checkout.Retrying` | src/main/java/org/example/api/service/BookService.java:60-69 | the retry proxy: at least one fetch is made, pauses are only appended, at most one per remaining retry, and the user directory never changes |
| `Checkout.Execute` | src/main/java/org/example/api/service/BookService.java:60-69 | whatever a call throws to its caller is a not-found or a conflict exception |
| `CheckoutProperties.AttemptFacts` | src/main/java/org/example/api/service/BookService.java:80-95 | for either operation: an attempt that throws leaves the table unchanged; an attempt that returns was permitted and applied exactly its effect |
| `CheckoutProperties.RetryingBound` | src/main/java/org/example/api/service/BookService.java:60-69 | from any attempt on, the loop fetches at most once per remaining attempt, pauses on the back-off schedule, and gives up on a retryable failure only after the last attempt |
| `CheckoutProperties.RetryingFrame` | src/main/java/org/example/api/service/BookService.java:86-95 | the loop changes the table only through a successful attempt: unchanged when it throws, exactly the operation's effect when it returns |
| `CheckoutProperties.RetryingRefused` | src/main/java/org/example/api/service/BookService.java:119-135 | a refused request stays refused through every retry: no save, and the only service exception is the first failing check's |
| `CheckoutProperties.ExecuteFacts` | src/main/java/org/example/api/service/BookService.java:60-69 | a call makes 1 to 3 fetches, one pause fewer than fetches, each pause at most 4000 ms; the table is unchanged when it throws and changed by exactly the operation's effect when it returns |
| `CheckoutProperties.ExecuteRejected` | src/main/java/org/example/api/service/BookService.java:86-89 | a call the checks refuse saves nothing, leaves the table unchanged and throws that refusal or "try again later" |
| `CheckoutProperties.ExecuteWithoutFaults` | src/main/java/org/example/api/service/BookService.java:80-95 | without storage failures: success if and only if every check passes, else the first failing check's exception; one fetch; one save exactly on success; the user is looked up only after the shelf check passes |
| `CheckoutProperties.NonRetryableEndsCall` | src/main/java/org/example/api/service/BookService.java:143-147 | an attempt that throws anything not retried ends the call after one fetch, with no pause, throwing the recovered exception |
| `CheckoutProperties.RetryThenSucceed` | src/test/java/org/example/api/service/BookServiceTest.java:176-195 | two lock failures then success: exactly 3 fetches, 1 save, 2 pauses, and the operation's effect |
| `CheckoutProperties.RetryExhausted` | src/test/java/org/example/api/service/BookServiceTest.java:197-206 | three lock or data-access failures: exactly 3 fetches, no save, no user lookup, table unchanged, "try again later" |
| `CheckoutProperties.SecondBorrowRejected` | src/main/java/org/example/api/service/BookService.java:86-89 | after a successful borrow, any later borrow of that copy, with any storage behaviour, is refused as already borrowed or "try again later" and saves nothing |
| `CheckoutProperties.ReturnUndoesBorrow` | src/main/java/org/example/api/service/BookService.java:137-139 | a return by the borrower right after their borrow succeeds and restores the table exactly |
| `CheckoutProperties.ExecutePreservesWellFormed` | src/main/java/org/example/api/service/BookService.java:93-94 | borrow and return keep every copy with holder and loan date set together, and every row under its own id |
| `CheckoutProperties.LendingScenario` | src/main/java/org/example/api/service/BookService.java:86-139 | U1 borrows, U2 is refused as already borrowed, U1 returns and the copy is free, U2 then borrows it |
| `Services.InventoryRepository.FindByIdWithPessimisticLock` | src/main/java/org/example/api/repository/InventoryRepository.java:14-16 | updates the repository object exactly as `Checkout.Fetch` says and returns what it returns |
| `Services.InventoryRepository.Save` | src/main/java/org/example/api/service/BookService.java:95 | updates the repository object exactly as `Checkout.Persist` says |
| `Services.UserService.GetUserById` | src/main/java/org/example/api/service/UserService.java:21-28 | behaves as `Checkout.Lookup` |
| `Services.BookService.TryBorrow` | src/main/java/org/example/api/service/BookService.java:71-97 | one attempt on the objects has the outcome and new state of `Checkout.BorrowAttempt` |
| `Services.BookService.TryReturn` | src/main/java/org/example/api/service/BookService.java:110-141 | one attempt on the objects has the outcome and new state of `Checkout.ReturnAttempt` |
| `Services.BookService.Retry` | src/main/java/org/example/api/service/BookService.java:60-69 | the `while` loop over attempts ends with the state, result and pauses of `Checkout.Retrying` |
| `Services.BookService.BorrowBook` | src/main/java/org/example/api/service/BookService.java:143-152 | the retried borrow followed by recovery ends as `Checkout.Execute` for a borrow |
| `Services.BookService.ReturnBook` | src/main/java/org/example/api/service/BookService.java:154-163 | the retried return followed by recovery ends as `Checkout.Execute` for a return |
| `Services.RetriedBorrowSucceeds` | src/test/java/org/example/api/service/BookServiceTest.java:176-195 | on the objects: two lock failures then success give 3 fetches, 1 save, and the saved copy holds the requester and `now` |
| `Services.ReturnGivesUpAfterMaxAttempts` | src/test/java/org/example/api/service/BookServiceTest.java:276-285 | on the objects: a lock that never comes gives 3 fetches, no save, the copy unchanged and "try again later" |

## Left out

- `getAllBooks` and `getBookById`: read-only pass-throughs to the book repository and the mapper.
- Controllers, the exception handler, `UserFacadeService` and `validateCredentials`: HTTP routing, validation, status mapping and the credential check are not part of this model.
- Repositories: modelled as a map with a scripted fetch and save; JPA, SQL and the schema are not modelled.
- Locking, transactions and threads: each attempt is one atomic step, so concurrency appears only as interleaved sequential calls (`SecondBorrowRejected`). Rollback is implicit: nothing is written before a save that goes through.
- Waiting: a pause is only a number of milliseconds returned by the call; no time passes.
- `BackoffDelay`: the jitter formula (interval stretched by 1 + f·(multiplier − 1) with f = u / 2^24 the library's random float, truncated to whole milliseconds, then capped) belongs to the retry library, not to the code here, and is an assumption of the model; the random generator itself is not modelled, only the set of values it can produce.
- Logging, and the attempt number read from the retry context.
- Failures of the user lookup other than not-found are not modelled; the directory never throws a storage failure.
- Null ids and null lists: ids of stored rows and every entity list are taken to be non-null, and list elements non-null.
- Cyclic object graphs: a book and its copies point at each other; a datatype value is a finite unfolding, which is all the projections read.
- Messages: each conflict is identified by its reason, and each not-found by the kind of resource and the id. The message text is not modelled.
- `ReturnBook` takes no clock reading; its spec function is called with `now = 0`, which a return never reads.
