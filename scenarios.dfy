/**
 The call sequences of LibraryManagerTest, each run on a fresh
 LibraryManager and proved from the class contracts alone. Parameters
 generalise the tests' fixed ids and quantities; the answer stubbed for
 UserService.isUserActive is passed as `userActive`, and the ghost result
 `sent` is the manager's notification log at the end.
 */
module LibraryScenarios {
  import opened Library

  /** testLibraryManagerWithAddingSuccess: two additions, any quantities. */
  method AddingScenario(bookId: string, quantity1: int, quantity2: int) returns (first: int, second: int)
    ensures first == quantity1
    ensures second == quantity1 + quantity2
  {
    var manager := new LibraryManager();
    manager.AddBook(bookId, quantity1);
    first := manager.GetAvailableCopies(bookId);
    manager.AddBook(bookId, quantity2);
    second := manager.GetAvailableCopies(bookId);
  }

  /** libraryManagerShouldReturnFalseIfAccountInactive: refused, and the
      only notification is the inactive-account one. */
  method InactiveAccountScenario(bookId: string, userId: string) returns (ok: bool, ghost sent: seq<Notification>)
    ensures !ok
    ensures sent == [Notification(userId, "Your account is not active.")]
  {
    var manager := new LibraryManager();
    ok := manager.BorrowBook(bookId, userId, false);
    sent := manager.notifications;
  }

  /** libraryManagerShouldReturnFalseIfBookNotPresentInLibrary. */
  method UnknownBookScenario(bookId: string, userId: string) returns (ok: bool, ghost sent: seq<Notification>)
    ensures !ok
    ensures sent == []
  {
    var manager := new LibraryManager();
    ok := manager.BorrowBook(bookId, userId, true);
    sent := manager.notifications;
  }

  /** libraryManagerShouldReturnFalseIfBurrowingBookQuantityIsLessOrEqualToZero. */
  method NoCopiesScenario(bookId: string, userId: string, quantity: int) returns (ok: bool, left: int)
    requires quantity <= 0
    ensures !ok
    ensures left == quantity
  {
    var manager := new LibraryManager();
    manager.AddBook(bookId, quantity);
    ok := manager.BorrowBook(bookId, userId, true);
    left := manager.GetAvailableCopies(bookId);
  }

  /** testBurrowingSuccess: the last copy is borrowed and the user is told. */
  method BorrowingSuccessScenario(bookId: string, userId: string) returns (ok: bool, left: int, ghost sent: seq<Notification>)
    ensures ok
    ensures left == 0
    ensures sent == [Notification(userId, "You have borrowed the book: " + bookId)]
  {
    var manager := new LibraryManager();
    manager.AddBook(bookId, 1);
    ok := manager.BorrowBook(bookId, userId, true);
    left := manager.GetAvailableCopies(bookId);
    sent := manager.notifications;
  }

  /** libraryManagerShouldReturnFalseWhenReturningNotBorrowedBook. */
  method ReturnNotBorrowedScenario(bookId: string, userId: string) returns (ok: bool)
    ensures !ok
  {
    var manager := new LibraryManager();
    ok := manager.ReturnBook(bookId, userId);
  }

  /** libraryManagerShouldReturnFalseWhenReturningBookNotBorrowedByProvidedUser:
      whatever the borrower's account status, another user cannot return. */
  method ReturnByOtherUserScenario(bookId: string, borrower: string, borrowerActive: bool, returner: string)
    returns (ok: bool)
    requires borrower != returner
    ensures !ok
  {
    var manager := new LibraryManager();
    var _ := manager.BorrowBook(bookId, borrower, borrowerActive);
    ok := manager.ReturnBook(bookId, returner);
  }

  /** testLibraryManagerBookReturn: add, borrow, return by the same user
      brings the count back to the quantity added. */
  method BookReturnScenario(bookId: string, userId: string, quantity: int)
    returns (ok: bool, left: int, ghost sent: seq<Notification>)
    requires quantity > 0
    ensures ok
    ensures left == quantity
    ensures sent == [Notification(userId, "You have borrowed the book: " + bookId),
                     Notification(userId, "You have returned the book: " + bookId)]
  {
    var manager := new LibraryManager();
    manager.AddBook(bookId, quantity);
    var _ := manager.BorrowBook(bookId, userId, true);
    ok := manager.ReturnBook(bookId, userId);
    left := manager.GetAvailableCopies(bookId);
    sent := manager.notifications;
  }
}
