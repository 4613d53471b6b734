/** LoanService (app/services/loan_service.go): the two operations that
    stamp dates on a loan before handing it to the repository.  The
    repository is reduced to its `CreateLoan` and `UpdateLoan` results; the
    clock reading is the parameter `now`.

    The source refers to `models.Loan`, which package models does not
    declare; the loan here is the one record that has the fields the service
    touches, `loan.Loan`. */
module LoanService {
  import opened Wrappers
  import opened Records
  import opened ErrorUtils
  import opened Pointers
  import LoanPkg

  type Loan = LoanPkg.Loan

  /** What the loan repository answers to an insert and to an update. */
  datatype LoanRepository = LoanRepository(
    createLoan: Loan -> Option<GoError>,
    updateLoan: Loan -> Option<GoError>)

  /** The loan CreateLoan stores: borrowed at `now`, everything else as the
      caller sent it. */
  function Borrowed(l: Loan, now: Time): (r: Loan)
    ensures r.borrowDate == now
    ensures r.dueDate == l.dueDate && r.returned == l.returned && r.returnDate == l.returnDate
    ensures r.(borrowDate := l.borrowDate) == l
  {
    l.(borrowDate := now)
  }

  /** The loan UpdateLoan stores: a returned loan gets `now` as its return
      date, an unreturned one is left exactly as sent. */
  function Stamped(l: Loan, now: Time): (r: Loan)
    ensures l.returned ==> r.returnDate == Some(now)
    ensures !l.returned ==> r == l
    ensures r.returned == l.returned && r.(returnDate := l.returnDate) == l
  {
    if l.returned then l.(returnDate := Some(now)) else l
  }

  /** CreateLoan: overwrites BorrowDate, then passes the repository's answer
      through. */
  method CreateLoan(l: Ref<Loan>, now: Time, repo: LoanRepository) returns (err: Option<GoError>)
    modifies l
    ensures l.value == Borrowed(old(l.value), now)
    ensures err == repo.createLoan(l.value)
  {
    l.value := l.value.(borrowDate := now);
    return repo.createLoan(l.value);
  }

  /** UpdateLoan: stamps the return date of a returned loan, then passes the
      repository's answer through. */
  method UpdateLoan(l: Ref<Loan>, now: Time, repo: LoanRepository) returns (err: Option<GoError>)
    modifies l
    ensures l.value == Stamped(old(l.value), now)
    ensures err == repo.updateLoan(l.value)
  {
    if l.value.returned {
      var stamp := now;
      l.value := l.value.(returnDate := Some(stamp));
    }
    return repo.updateLoan(l.value);
  }

  /** Returning twice moves the return date to the second call's clock
      reading: the update is not idempotent. */
  lemma ReturnIsNotIdempotent(l: Loan, first: Time, second: Time)
    requires l.returned && first != second
    ensures Stamped(Stamped(l, first), second).returnDate == Some(second)
    ensures Stamped(Stamped(l, first), second) != Stamped(l, first)
  {
  }

  /** Nothing ties the flag to the date: an unreturned loan keeps whatever
      return date it was sent with. */
  lemma ReturnDateWithoutReturnedSurvives(l: Loan, date: Time, now: Time)
    requires !l.returned
    ensures var r := Stamped(l.(returnDate := Some(date)), now);
            !r.returned && r.returnDate == Some(date)
  {
  }

  /** Creating and then returning a loan leaves its due date untouched. */
  lemma DueDatePassesThrough(l: Loan, borrowed: Time, returned: Time)
    ensures Stamped(Borrowed(l, borrowed), returned).dueDate == l.dueDate
    ensures Stamped(Borrowed(l, borrowed), returned).borrowDate == borrowed
  {
  }
}
