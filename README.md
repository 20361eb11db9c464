# LibraryManager — a verified Dafny model

The repository is a unit-testing homework whose subject is `LibraryManager`,
a small in-memory lending manager. It keeps two tables: the available copies
per book id and, while a book is out, the id of the user who borrowed it. It
asks a `UserService` whether an account is active, tells users what happened
through a `NotificationService`, and computes a late-return fee.

The model gives `LibraryManager`'s behaviour as the assertions of
`src/test/java/ru/hh/school/unittesting/homework/LibraryManagerTest.java` fix it;
each row below cites the assertions it comes from. Where the tests are silent,
the model takes a reading of its own, and the contracts state that reading too:
refused borrows of an active user and refused returns send no notification; a
refused borrow leaves the count unchanged; the notification log is exact (the
tests only check that the expected notification was sent, except for the
inactive account, where they also check it was the only one); a non-negative day count never raises the error; and the ×1.5 and
×0.8 fee factors hold for every day count, not only day 1.

`library.dfy` holds one module, `Library`:

- `Shelf` is the pair of tables (`copies`, `loans`); `Consistent` says every
  book on loan is a known book.
- `AddCopies`, `BorrowOutcome` and `ReturnOutcome` are the three state changes
  as pure functions. A borrow or return yields an `Outcome`: the boolean the
  Java method returns, the tables afterwards, and the notifications sent.
- `CalculateDynamicLateFee` returns a `Fee`: an amount, or the
  `IllegalArgumentException` with its message.
- `Call` and `Run` describe a series of calls on one manager, as each test
  makes them. The lemmas about whole series live here.
- The class `LibraryManager` holds the tables as `map` fields that its methods
  reassign. A ghost sequence `notifications` records every `notifyUser` call.
  Each mutating method is proved to perform exactly the corresponding step
  function.

`scenarios.dfy` holds the module `LibraryScenarios`. Each of its methods replays
the calls of one test on a fresh `LibraryManager`, and its postconditions include
that test's assertions, proved from the class contracts alone. Fixed ids and
quantities in the tests become parameters.

External collaborators become values:

- `UserService.isUserActive(userId)` is the `userActive` parameter of
  `BorrowBook`. It is consulted before the book is looked up.
- `NotificationService.notifyUser(userId, message)` is a `Notification`
  appended to the log.

The tests never borrow a book that is already on loan (possible when it has
several copies). There the model records the new borrower in place of the old
one, as a map insertion does; this is the model's reading where the tests are
silent. It follows that the first borrower can no longer return the book, so
that copy never goes back on the shelf (`SecondBorrowStrandsFirst`), and that a
book's shelf count plus its one recorded loan can only stay at or below the
copies added (`NeverMoreThanAdded`). It is not an exact conservation law.

## Model

| member | source | states |
|---|---|---|
| Library.AddCopies | src/test/java/ru/hh/school/unittesting/homework/LibraryManagerTest.java:40-48 | a fresh id gets exactly the quantity, a known id gains it (zero and negative included), other ids and the loans are untouched |
| Library.AddBookTwice | src/test/java/ru/hh/school/unittesting/homework/LibraryManagerTest.java:30-48 | addBook(id, q1) on a fresh id gives q1 copies, then addBook(id, q2) gives q1 + q2 |
| Library.AddSeriesSums | src/test/java/ru/hh/school/unittesting/homework/LibraryManagerTest.java:30-48 | any series of addBook calls for one id leaves its count at the earlier count plus the sum of the quantities, loans unchanged |
| Library.BorrowOutcome | src/test/java/ru/hh/school/unittesting/homework/LibraryManagerTest.java:51-84 | borrow succeeds iff the user is active and the book is known with a positive count; an inactive user gets exactly the "Your account is not active." notification; any failure changes nothing; success removes one copy, records the loan for that user and sends "You have borrowed the book: " + id |
| Library.ReturnOutcome | src/test/java/ru/hh/school/unittesting/homework/LibraryManagerTest.java:87-115 | return succeeds iff the book is on loan to exactly this user; failure changes nothing and sends nothing; success puts one copy back, clears the loan and sends "You have returned the book: " + id |
| Library.BorrowThenReturn | src/test/java/ru/hh/school/unittesting/homework/LibraryManagerTest.java:99-115 | a successful borrow of a book not on loan, then a return by the same user, succeeds, restores both tables exactly and sends the returned-book notification |
| Library.ReturnByOtherUserRefused | src/test/java/ru/hh/school/unittesting/homework/LibraryManagerTest.java:92-96 | after any borrow attempt on a book not on loan, a return by a different user fails and changes nothing |
| Library.SecondBorrowStrandsFirst | src/test/java/ru/hh/school/unittesting/homework/LibraryManagerTest.java:92-96 | when a second user borrows a book already on loan to a first user, the first user's return is refused, since only the recorded borrower may return |
| Library.Run | src/test/java/ru/hh/school/unittesting/homework/LibraryManagerTest.java:99-115 | any series of addBook, borrowBook and returnBook calls keeps every loaned book a known book |
| Library.RunHoldings | src/test/java/ru/hh/school/unittesting/homework/LibraryManagerTest.java:99-115 | over any series of calls, shelf count plus recorded loan grows by at most the quantities added |
| Library.NeverMoreThanAdded | src/test/java/ru/hh/school/unittesting/homework/LibraryManagerTest.java:99-115 | from a fresh manager, borrowing and returning never make more copies of a book than addBook supplied |
| Library.CalculateDynamicLateFee | src/test/java/ru/hh/school/unittesting/homework/LibraryManagerTest.java:117-136 | negative overdue days give an IllegalArgumentException with "Overdue days cannot be negative." and nothing else does; day 1 gives 0.5, 0.4 (premium), 0.75 (bestseller), 0.6 (both) |
| Library.LateFeeFactors | src/test/java/ru/hh/school/unittesting/homework/LibraryManagerTest.java:127-136 | for any non-negative days, a bestseller pays 1.5 times and a premium member 0.8 times the fee otherwise due |
| Library.LibraryManager.constructor | src/test/java/ru/hh/school/unittesting/homework/LibraryManagerTest.java:20-21 | a new manager has no books, no loans and has sent no notification |
| Library.LibraryManager.AddBook | src/test/java/ru/hh/school/unittesting/homework/LibraryManagerTest.java:40-48 | updates the copies table exactly as AddCopies, sends nothing |
| Library.LibraryManager.GetAvailableCopies | src/test/java/ru/hh/school/unittesting/homework/LibraryManagerTest.java:40-48 | returns the current count of a known book |
| Library.LibraryManager.BorrowBook | src/test/java/ru/hh/school/unittesting/homework/LibraryManagerTest.java:51-84 | returns, updates the tables and notifies exactly as BorrowOutcome |
| Library.LibraryManager.ReturnBook | src/test/java/ru/hh/school/unittesting/homework/LibraryManagerTest.java:87-115 | returns, updates the tables and notifies exactly as ReturnOutcome |
| LibraryScenarios.AddingScenario | src/test/java/ru/hh/school/unittesting/homework/LibraryManagerTest.java:30-48 | on a fresh manager, addBook(id, q1) then reads q1, addBook(id, q2) then reads q1 + q2, for any quantities |
| LibraryScenarios.InactiveAccountScenario | src/test/java/ru/hh/school/unittesting/homework/LibraryManagerTest.java:51-56 | an inactive user's borrow returns false and the only notification sent is "Your account is not active." to that user |
| LibraryScenarios.UnknownBookScenario | src/test/java/ru/hh/school/unittesting/homework/LibraryManagerTest.java:58-62 | an active user's borrow of a book never added returns false and sends nothing |
| LibraryScenarios.NoCopiesScenario | src/test/java/ru/hh/school/unittesting/homework/LibraryManagerTest.java:64-70 | after addBook with a quantity of zero or less, an active user's borrow returns false and the count is unchanged |
| LibraryScenarios.BorrowingSuccessScenario | src/test/java/ru/hh/school/unittesting/homework/LibraryManagerTest.java:73-84 | borrowing the single copy returns true, leaves 0 copies and notifies "You have borrowed the book: " + id |
| LibraryScenarios.ReturnNotBorrowedScenario | src/test/java/ru/hh/school/unittesting/homework/LibraryManagerTest.java:87-90 | returning a book that was never borrowed returns false |
| LibraryScenarios.ReturnByOtherUserScenario | src/test/java/ru/hh/school/unittesting/homework/LibraryManagerTest.java:92-96 | after another user's borrow attempt, whatever its account status, the return returns false |
| LibraryScenarios.BookReturnScenario | src/test/java/ru/hh/school/unittesting/homework/LibraryManagerTest.java:99-115 | add q > 0 copies, borrow, return by the same user: the return succeeds, q copies are available, and the borrowed then returned notifications are sent |

## Left out

- Library.LibraryManager.GetAvailableCopies: the result for an id never added is 0 in the body, but no contract states it, because no test asserts it.
- Library.CalculateDynamicLateFee: for overdue days other than 1 the body charges 0.5 per day. No contract states this per-day rule, because only day 1 is tested. LateFeeFactors depends only on the two multipliers.
- Copy counts are unbounded integers; Java `int` overflow in addBook's sum and returnBook's increment is not modelled.
- Library.AddCopies: a count past the Java `int` range is the exact sum here, where Java wraps around, because counts are unbounded integers.
- Library.AddSeriesSums: the sum of the quantities is exact, not reduced to the Java `int` range, for the same reason.
- LibraryScenarios.AddingScenario: `quantity1 + quantity2` is the exact sum, not the wrapped Java `int` sum, for the same reason.
- Fees are exact `real` numbers. Java `double` rounding, and any rounding the class applies to its result, is not modelled.
- UserService and NotificationService are external services. Their answers and effects are a parameter and a ghost log.
- The JUnit and Mockito machinery (mock injection, stubbing, interaction verification) is not modelled. The tests' assertions are stated as lemmas and contracts instead.
