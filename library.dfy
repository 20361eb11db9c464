/**
 A model of LibraryManager, the in-memory lending manager of the
 hh-school unit-testing homework: available copies per book, the current
 borrower per book, the account-activity check and the user notifications
 around borrowing and returning, and the late-fee calculation.

 The state changes are specified by pure step functions over a `Shelf`
 value; the class `LibraryManager` keeps the same state in fields and its
 methods are proved to perform exactly those steps.
 */
module Library {

  /** A call to NotificationService.notifyUser(userId, message). */
  datatype Notification = Notification(userId: string, message: string)

  const NotActiveMessage: string := "Your account is not active."
  const NegativeDaysMessage: string := "Overdue days cannot be negative."

  function BorrowedMessage(bookId: string): string {
    "You have borrowed the book: " + bookId
  }

  function ReturnedMessage(bookId: string): string {
    "You have returned the book: " + bookId
  }

  /** The manager's two tables: available copies per book id, and the
      borrowing user per book id while the book is on loan. */
  datatype Shelf = Shelf(copies: map<string, int>, loans: map<string, string>)

  /** A freshly created manager knows no books and no loans. */
  const Empty: Shelf := Shelf(map[], map[])

  /** Every book on loan is a book the manager knows. */
  ghost predicate Consistent(s: Shelf) {
    s.loans.Keys <= s.copies.Keys
  }

  /** What a borrow or return attempt reports, the tables after it, and
      the notifications it sends, in order. */
  datatype Outcome = Outcome(ok: bool, after: Shelf, sent: seq<Notification>)

  /** addBook: a new id starts at `quantity`, a known id gains `quantity`;
      the quantity is not validated (zero and negative are accepted). */
  function AddCopies(s: Shelf, bookId: string, quantity: int): (t: Shelf)
    ensures t.copies.Keys == s.copies.Keys + {bookId}
    ensures bookId !in s.copies ==> t.copies[bookId] == quantity
    ensures bookId in s.copies ==> t.copies[bookId] == s.copies[bookId] + quantity
    ensures forall id :: id in s.copies && id != bookId ==> t.copies[id] == s.copies[id]
    ensures t.loans == s.loans
    ensures Consistent(s) ==> Consistent(t)
  {
    var before := if bookId in s.copies then s.copies[bookId] else 0;
    Shelf(s.copies[bookId := before + quantity], s.loans)
  }

  /** borrowBook: the activity check comes first and an inactive user is
      told so; an unknown book or one with no positive count is refused
      silently; otherwise one copy leaves the shelf, the loan is recorded
      for this user and the user is told which book was borrowed. */
  function BorrowOutcome(s: Shelf, bookId: string, userId: string, userActive: bool): (r: Outcome)
    ensures r.ok <==> userActive && bookId in s.copies && s.copies[bookId] > 0
    ensures !r.ok ==> r.after == s
    ensures !userActive ==> r.sent == [Notification(userId, NotActiveMessage)]
    ensures userActive && !r.ok ==> r.sent == []
    ensures r.ok ==> r.sent == [Notification(userId, BorrowedMessage(bookId))]
    ensures r.ok ==> r.after.copies == s.copies[bookId := s.copies[bookId] - 1]
    ensures r.ok ==> r.after.loans == s.loans[bookId := userId]
    ensures Consistent(s) ==> Consistent(r.after)
  {
    if !userActive then
      Outcome(false, s, [Notification(userId, NotActiveMessage)])
    else
      var available := if bookId in s.copies then s.copies[bookId] else 0;
      if available <= 0 then
        Outcome(false, s, [])
      else
        Outcome(true,
                Shelf(s.copies[bookId := available - 1], s.loans[bookId := userId]),
                [Notification(userId, BorrowedMessage(bookId))])
  }

  /** returnBook: succeeds only for the user recorded as the book's
      borrower; then the copy goes back on the shelf, the loan is cleared
      and the user is told which book was returned. */
  function ReturnOutcome(s: Shelf, bookId: string, userId: string): (r: Outcome)
    requires Consistent(s)
    ensures r.ok <==> bookId in s.loans && s.loans[bookId] == userId
    ensures !r.ok ==> r.after == s && r.sent == []
    ensures r.ok ==> r.sent == [Notification(userId, ReturnedMessage(bookId))]
    ensures r.ok ==> r.after.copies == s.copies[bookId := s.copies[bookId] + 1]
    ensures r.ok ==> r.after.loans == s.loans - {bookId}
    ensures Consistent(r.after)
  {
    if bookId !in s.loans || s.loans[bookId] != userId then
      Outcome(false, s, [])
    else
      Outcome(true,
              Shelf(s.copies[bookId := s.copies[bookId] + 1], s.loans - {bookId}),
              [Notification(userId, ReturnedMessage(bookId))])
  }

  /** The outcome of calculateDynamicLateFee: the fee, or the
      IllegalArgumentException with its message. */
  datatype Fee = Amount(value: real) | IllegalArgument(message: string)

  /** calculateDynamicLateFee: negative overdue days are rejected; otherwise
      a base fee of 0.5 for one overdue day, times 1.5 for a bestseller,
      times 0.8 for a premium member. */
  function CalculateDynamicLateFee(overdueDays: int, isBestseller: bool, isPremiumMember: bool): (r: Fee)
    ensures r.IllegalArgument? <==> overdueDays < 0
    ensures r.IllegalArgument? ==> r.message == "Overdue days cannot be negative."
    ensures overdueDays == 1 && !isBestseller && !isPremiumMember ==> r == Amount(0.5)
    ensures overdueDays == 1 && !isBestseller && isPremiumMember ==> r == Amount(0.4)
    ensures overdueDays == 1 && isBestseller && !isPremiumMember ==> r == Amount(0.75)
    ensures overdueDays == 1 && isBestseller && isPremiumMember ==> r == Amount(0.6)
  {
    if overdueDays < 0 then
      IllegalArgument(NegativeDaysMessage)
    else
      // The rate of 0.5 per day for other day counts is this model's choice.
      var bestsellerMultiplier := if isBestseller then 1.5 else 1.0;
      var premiumDiscount := if isPremiumMember then 0.8 else 1.0;
      Amount(overdueDays as real * 0.5 * bestsellerMultiplier * premiumDiscount)
  }

  /** The bestseller surcharge and the premium discount are factors of the
      fee, whatever the number of overdue days. */
  lemma LateFeeFactors(overdueDays: int, isBestseller: bool, isPremiumMember: bool)
    requires overdueDays >= 0
    ensures CalculateDynamicLateFee(overdueDays, true, isPremiumMember).value
         == 1.5 * CalculateDynamicLateFee(overdueDays, false, isPremiumMember).value
    ensures CalculateDynamicLateFee(overdueDays, isBestseller, true).value
         == 0.8 * CalculateDynamicLateFee(overdueDays, isBestseller, false).value
  {
  }

  /** One call on a manager, with the activity answer the user service
      gives for a borrow. */
  datatype Call =
    | AddBookCall(bookId: string, quantity: int)
    | BorrowBookCall(bookId: string, userId: string, userActive: bool)
    | ReturnBookCall(bookId: string, userId: string)

  function Apply(s: Shelf, c: Call): (t: Shelf)
    requires Consistent(s)
    ensures Consistent(t)
  {
    match c
    case AddBookCall(bookId, quantity) => AddCopies(s, bookId, quantity)
    case BorrowBookCall(bookId, userId, userActive) => BorrowOutcome(s, bookId, userId, userActive).after
    case ReturnBookCall(bookId, userId) => ReturnOutcome(s, bookId, userId).after
  }

  /** The tables after a series of calls on one manager, in order. */
  function Run(s: Shelf, calls: seq<Call>): (t: Shelf)
    requires Consistent(s)
    ensures Consistent(t)
    decreases |calls|
  {
    if calls == [] then s else Run(Apply(s, calls[0]), calls[1..])
  }

  /** The total quantity a series of calls adds for one book id. */
  function AddedTotal(calls: seq<Call>, bookId: string): int
    decreases |calls|
  {
    if calls == [] then 0
    else
      var head := if calls[0].AddBookCall? && calls[0].bookId == bookId then calls[0].quantity else 0;
      head + AddedTotal(calls[1..], bookId)
  }

  /** Copies of a book on the shelf plus the copy out on a recorded loan. */
  ghost function Holdings(s: Shelf, bookId: string): int {
    (if bookId in s.copies then s.copies[bookId] else 0) + (if bookId in s.loans then 1 else 0)
  }

  lemma ApplyHoldings(s: Shelf, c: Call, bookId: string)
    requires Consistent(s)
    ensures Holdings(Apply(s, c), bookId) <= Holdings(s, bookId) + AddedTotal([c], bookId)
  {
  }

  /** Only addBook creates copies: borrowing and returning never raise a
      book's shelf count plus its recorded loan. */
  lemma {:induction false} RunHoldings(s: Shelf, calls: seq<Call>, bookId: string)
    requires Consistent(s)
    ensures Holdings(Run(s, calls), bookId) <= Holdings(s, bookId) + AddedTotal(calls, bookId)
    decreases |calls|
  {
    if calls != [] {
      ApplyHoldings(s, calls[0], bookId);
      RunHoldings(Apply(s, calls[0]), calls[1..], bookId);
    }
  }

  /** On a manager that starts empty, the copies of a book on the shelf,
      plus the one out on loan, never exceed the copies ever added. */
  lemma NeverMoreThanAdded(calls: seq<Call>, bookId: string)
    ensures Holdings(Run(Empty, calls), bookId) <= AddedTotal(calls, bookId)
  {
    RunHoldings(Empty, calls, bookId);
  }

  /** A series of addBook calls for one id: the count is the sum of the
      quantities (on top of the earlier count), for any quantities. */
  lemma {:induction false} AddSeriesSums(s: Shelf, bookId: string, calls: seq<Call>)
    requires Consistent(s)
    requires forall i :: 0 <= i < |calls| ==> calls[i].AddBookCall? && calls[i].bookId == bookId
    ensures Run(s, calls).loans == s.loans
    ensures bookId in s.copies || |calls| > 0 ==>
      bookId in Run(s, calls).copies &&
      Run(s, calls).copies[bookId] == (if bookId in s.copies then s.copies[bookId] else 0) + AddedTotal(calls, bookId)
    decreases |calls|
  {
    if calls != [] {
      var t := Apply(s, calls[0]);
      assert t == AddCopies(s, bookId, calls[0].quantity);
      AddSeriesSums(t, bookId, calls[1..]);
    }
  }

  /** Two addBook calls on a fresh id give the first quantity, then the sum. */
  lemma AddBookTwice(s: Shelf, bookId: string, quantity1: int, quantity2: int)
    requires bookId !in s.copies
    ensures AddCopies(s, bookId, quantity1).copies[bookId] == quantity1
    ensures AddCopies(AddCopies(s, bookId, quantity1), bookId, quantity2).copies[bookId] == quantity1 + quantity2
  {
  }

  /** A successful borrow followed by a return by the same user restores
      the tables exactly, when the book was not on loan before. */
  lemma BorrowThenReturn(s: Shelf, bookId: string, userId: string)
    requires Consistent(s)
    requires bookId !in s.loans
    requires BorrowOutcome(s, bookId, userId, true).ok
    ensures var lent := BorrowOutcome(s, bookId, userId, true).after;
      var back := ReturnOutcome(lent, bookId, userId);
      back.ok && back.after == s && back.sent == [Notification(userId, ReturnedMessage(bookId))]
  {
  }

  /** A second successful borrow of a book replaces its recorded borrower,
      so the first borrower's return is refused and changes nothing. */
  lemma SecondBorrowStrandsFirst(s: Shelf, bookId: string, first: string, second: string)
    requires Consistent(s)
    requires first != second
    requires BorrowOutcome(s, bookId, first, true).ok
    requires BorrowOutcome(BorrowOutcome(s, bookId, first, true).after, bookId, second, true).ok
    ensures var lent := BorrowOutcome(BorrowOutcome(s, bookId, first, true).after, bookId, second, true).after;
      !ReturnOutcome(lent, bookId, first).ok && ReturnOutcome(lent, bookId, first).after == lent
  {
  }

  /** After a borrow attempt on a book that was not on loan, a different
      user cannot return it, whether the attempt succeeded or not. */
  lemma ReturnByOtherUserRefused(s: Shelf, bookId: string, borrower: string, userActive: bool, returner: string)
    requires Consistent(s)
    requires bookId !in s.loans
    requires borrower != returner
    ensures var lent := BorrowOutcome(s, bookId, borrower, userActive).after;
      !ReturnOutcome(lent, bookId, returner).ok && ReturnOutcome(lent, bookId, returner).after == lent
  {
  }

  /** The manager itself. `userActive` stands for the answer of
      UserService.isUserActive(userId); `notifications` records the calls
      made to NotificationService.notifyUser. */
  class LibraryManager {
    var copies: map<string, int>
    var loans: map<string, string>
    ghost var notifications: seq<Notification>

    function State(): Shelf
      reads this
    {
      Shelf(copies, loans)
    }

    ghost predicate Valid()
      reads this
    {
      Consistent(State())
    }

    constructor ()
      ensures Valid()
      ensures State() == Empty && notifications == []
    {
      copies := map[];
      loans := map[];
      notifications := [];
    }

    method AddBook(bookId: string, quantity: int)
      requires Valid()
      modifies this
      ensures Valid()
      ensures State() == AddCopies(old(State()), bookId, quantity)
      ensures notifications == old(notifications)
    {
      var before := if bookId in copies then copies[bookId] else 0;
      copies := copies[bookId := before + quantity];
    }

    method GetAvailableCopies(bookId: string) returns (n: int)
      ensures bookId in copies ==> n == copies[bookId]
    {
      n := if bookId in copies then copies[bookId] else 0;
    }

    method BorrowBook(bookId: string, userId: string, userActive: bool) returns (ok: bool)
      requires Valid()
      modifies this
      ensures Valid()
      ensures var o := BorrowOutcome(old(State()), bookId, userId, userActive);
        ok == o.ok && State() == o.after && notifications == old(notifications) + o.sent
    {
      if !userActive {
        notifications := notifications + [Notification(userId, NotActiveMessage)];
        return false;
      }
      var available := if bookId in copies then copies[bookId] else 0;
      if available <= 0 {
        return false;
      }
      copies := copies[bookId := available - 1];
      loans := loans[bookId := userId];
      notifications := notifications + [Notification(userId, BorrowedMessage(bookId))];
      return true;
    }

    method ReturnBook(bookId: string, userId: string) returns (ok: bool)
      requires Valid()
      modifies this
      ensures Valid()
      ensures var o := ReturnOutcome(old(State()), bookId, userId);
        ok == o.ok && State() == o.after && notifications == old(notifications) + o.sent
    {
      if bookId !in loans || loans[bookId] != userId {
        return false;
      }
      copies := copies[bookId := copies[bookId] + 1];
      loans := loans - {bookId};
      notifications := notifications + [Notification(userId, ReturnedMessage(bookId))];
      return true;
    }
  }
}
