/** The slice-backed store of package database (database/database.go,
    the `*Database` methods): one Go slice per entity, searched front to back.
    Creating assigns `len + 1` as the id, so after a delete an id can be
    handed out twice (CreateAfterDeleteRepeatsId). */
module Database {
  import opened Wrappers
  import opened Records
  import opened SeqScan
  import opened ErrorUtils
  import opened Pointers

  datatype Member = Member(
    id: int, name: string, gender: string, email: string, phoneNumber: string,
    address: string, registrationDate: Time, membershipType: string)

  datatype Book = Book(id: int, title: string, author: string)

  /** A loan; `ReturnDate` is a nilable pointer, None until set. */
  datatype Loan = Loan(
    id: int, memberId: int, bookId: int, borrowDate: Time, dueDate: Time, returnDate: Option<Time>)

  datatype LoanHistory = LoanHistory(
    id: int, memberId: int, bookId: int, borrowDate: Time, dueDate: Time, returnDate: Option<Time>)

  datatype Notification = Notification(
    id: int, userId: int, message: string, timestamp: Time, read: bool, isRead: bool, memberId: int)

  // The fields the lookups match on.
  function MemberId(m: Member): int { m.id }
  function MemberName(m: Member): string { m.name }
  function MemberEmail(m: Member): string { m.email }
  function MemberAddress(m: Member): string { m.address }
  function MemberPhoneNumber(m: Member): string { m.phoneNumber }
  function MemberGender(m: Member): string { m.gender }
  function MemberMembershipType(m: Member): string { m.membershipType }
  function MemberRegistrationDate(m: Member): Time { m.registrationDate }
  function BookId(b: Book): int { b.id }
  function BookTitle(b: Book): string { b.title }
  function LoanId(l: Loan): int { l.id }
  function LoanHistoryId(h: LoanHistory): int { h.id }
  function NotificationId(n: Notification): int { n.id }
  function NotificationMemberId(n: Notification): int { n.memberId }

  class Database {
    var members: seq<Member>
    var books: seq<Book>
    var loans: seq<Loan>
    var loanHistory: seq<LoanHistory>
    var notifications: seq<Notification>
    var reviews: seq<Review>

    /** NewDatabase: every slice empty. */
    constructor ()
      ensures members == [] && books == [] && loans == [] && loanHistory == []
      ensures notifications == [] && reviews == []
    {
      members, books, loans, loanHistory, notifications, reviews := [], [], [], [], [], [];
    }

    /** GetMemberByID: the first entry with that id. */
    method GetMemberByID(id: int) returns (r: Result<Member, GoError>)
      ensures var i := FirstIndex(members, MemberId, id);
              r == if i < |members| then Success(members[i]) else Failure(Plain("member not found"))
    {
      var i := FindFirst(members, MemberId, id);
      if i < |members| {
        return Success(members[i]);
      }
      return Failure(Plain("member not found"));
    }

    /** CreateMember: the id is the old length plus one, written back through the
        pointer, and the entry is appended last. */
    method CreateMember(x: Ref<Member>) returns (err: Option<GoError>)
      modifies this`members, x
      ensures x.value == old(x.value).(id := |old(members)| + 1)
      ensures members == old(members) + [x.value]
      ensures err.None?
    {
      x.value := x.value.(id := |members| + 1);
      members := members + [x.value];
      return None;
    }

    /** UpdateMember: replaces the first entry with the same id, and only that one. */
    method UpdateMember(x: Member) returns (err: Option<GoError>)
      modifies this`members
      ensures var i := FirstIndex(old(members), MemberId, x.id);
              if i < |old(members)| then err.None? && members == old(members)[i := x]
              else err == Some(Plain("member not found")) && members == old(members)
    {
      var i := FindFirst(members, MemberId, x.id);
      if i < |members| {
        members := members[i := x];
        return None;
      }
      return Some(Plain("member not found"));
    }

    /** DeleteMember: cuts the first entry with that id out of the slice. */
    method DeleteMember(id: int) returns (err: Option<GoError>)
      modifies this`members
      ensures var i := FirstIndex(old(members), MemberId, id);
              if i < |old(members)| then err.None? && members == RemoveAt(old(members), i)
              else err == Some(Plain("member not found")) && members == old(members)
    {
      var i := FindFirst(members, MemberId, id);
      if i < |members| {
        members := RemoveAt(members, i);
        return None;
      }
      return Some(Plain("member not found"));
    }

    /** GetAllBooks: the stored slice itself. */
    method GetAllBooks() returns (r: seq<Book>, err: Option<GoError>)
      ensures r == books && err.None?
    {
      return books, None;
    }

    /** GetBookByID: the first entry with that id. */
    method GetBookByID(id: int) returns (r: Result<Book, GoError>)
      ensures var i := FirstIndex(books, BookId, id);
              r == if i < |books| then Success(books[i]) else Failure(Plain("book not found"))
    {
      var i := FindFirst(books, BookId, id);
      if i < |books| {
        return Success(books[i]);
      }
      return Failure(Plain("book not found"));
    }

    /** CreateBook: the id is the old length plus one, written back through the
        pointer, and the entry is appended last. */
    method CreateBook(x: Ref<Book>) returns (err: Option<GoError>)
      modifies this`books, x
      ensures x.value == old(x.value).(id := |old(books)| + 1)
      ensures books == old(books) + [x.value]
      ensures err.None?
    {
      x.value := x.value.(id := |books| + 1);
      books := books + [x.value];
      return None;
    }

    /** UpdateBook: replaces the first entry with the same id, and only that one. */
    method UpdateBook(x: Book) returns (err: Option<GoError>)
      modifies this`books
      ensures var i := FirstIndex(old(books), BookId, x.id);
              if i < |old(books)| then err.None? && books == old(books)[i := x]
              else err == Some(Plain("book not found")) && books == old(books)
    {
      var i := FindFirst(books, BookId, x.id);
      if i < |books| {
        books := books[i := x];
        return None;
      }
      return Some(Plain("book not found"));
    }

    /** DeleteBook: cuts the first entry with that id out of the slice. */
    method DeleteBook(id: int) returns (err: Option<GoError>)
      modifies this`books
      ensures var i := FirstIndex(old(books), BookId, id);
              if i < |old(books)| then err.None? && books == RemoveAt(old(books), i)
              else err == Some(Plain("book not found")) && books == old(books)
    {
      var i := FindFirst(books, BookId, id);
      if i < |books| {
        books := RemoveAt(books, i);
        return None;
      }
      return Some(Plain("book not found"));
    }

    /** GetAllLoans: the stored slice itself. */
    method GetAllLoans() returns (r: seq<Loan>, err: Option<GoError>)
      ensures r == loans && err.None?
    {
      return loans, None;
    }

    /** GetLoanByID: the first entry with that id. */
    method GetLoanByID(id: int) returns (r: Result<Loan, GoError>)
      ensures var i := FirstIndex(loans, LoanId, id);
              r == if i < |loans| then Success(loans[i]) else Failure(Plain("loan not found"))
    {
      var i := FindFirst(loans, LoanId, id);
      if i < |loans| {
        return Success(loans[i]);
      }
      return Failure(Plain("loan not found"));
    }

    /** CreateLoan: the id is the old length plus one, written back through the
        pointer, and the entry is appended last. */
    method CreateLoan(x: Ref<Loan>) returns (err: Option<GoError>)
      modifies this`loans, x
      ensures x.value == old(x.value).(id := |old(loans)| + 1)
      ensures loans == old(loans) + [x.value]
      ensures err.None?
    {
      x.value := x.value.(id := |loans| + 1);
      loans := loans + [x.value];
      return None;
    }

    /** UpdateLoan: replaces the first entry with the same id, and only that one. */
    method UpdateLoan(x: Loan) returns (err: Option<GoError>)
      modifies this`loans
      ensures var i := FirstIndex(old(loans), LoanId, x.id);
              if i < |old(loans)| then err.None? && loans == old(loans)[i := x]
              else err == Some(Plain("loan not found")) && loans == old(loans)
    {
      var i := FindFirst(loans, LoanId, x.id);
      if i < |loans| {
        loans := loans[i := x];
        return None;
      }
      return Some(Plain("loan not found"));
    }

    /** DeleteLoan: cuts the first entry with that id out of the slice. */
    method DeleteLoan(id: int) returns (err: Option<GoError>)
      modifies this`loans
      ensures var i := FirstIndex(old(loans), LoanId, id);
              if i < |old(loans)| then err.None? && loans == RemoveAt(old(loans), i)
              else err == Some(Plain("loan not found")) && loans == old(loans)
    {
      var i := FindFirst(loans, LoanId, id);
      if i < |loans| {
        loans := RemoveAt(loans, i);
        return None;
      }
      return Some(Plain("loan not found"));
    }

    /** GetAllLoanHistories: the stored slice itself. */
    method GetAllLoanHistories() returns (r: seq<LoanHistory>, err: Option<GoError>)
      ensures r == loanHistory && err.None?
    {
      return loanHistory, None;
    }

    /** GetLoanHistoryByID: the first entry with that id. */
    method GetLoanHistoryByID(id: int) returns (r: Result<LoanHistory, GoError>)
      ensures var i := FirstIndex(loanHistory, LoanHistoryId, id);
              r == if i < |loanHistory| then Success(loanHistory[i]) else Failure(Plain("loan history not found"))
    {
      var i := FindFirst(loanHistory, LoanHistoryId, id);
      if i < |loanHistory| {
        return Success(loanHistory[i]);
      }
      return Failure(Plain("loan history not found"));
    }

    /** CreateLoanHistory: the id is the old length plus one, written back through the
        pointer, and the entry is appended last. */
    method CreateLoanHistory(x: Ref<LoanHistory>) returns (err: Option<GoError>)
      modifies this`loanHistory, x
      ensures x.value == old(x.value).(id := |old(loanHistory)| + 1)
      ensures loanHistory == old(loanHistory) + [x.value]
      ensures err.None?
    {
      x.value := x.value.(id := |loanHistory| + 1);
      loanHistory := loanHistory + [x.value];
      return None;
    }

    /** UpdateLoanHistory: replaces the first entry with the same id, and only that one. */
    method UpdateLoanHistory(x: LoanHistory) returns (err: Option<GoError>)
      modifies this`loanHistory
      ensures var i := FirstIndex(old(loanHistory), LoanHistoryId, x.id);
              if i < |old(loanHistory)| then err.None? && loanHistory == old(loanHistory)[i := x]
              else err == Some(Plain("loan history not found")) && loanHistory == old(loanHistory)
    {
      var i := FindFirst(loanHistory, LoanHistoryId, x.id);
      if i < |loanHistory| {
        loanHistory := loanHistory[i := x];
        return None;
      }
      return Some(Plain("loan history not found"));
    }

    /** DeleteLoanHistory: cuts the first entry with that id out of the slice. */
    method DeleteLoanHistory(id: int) returns (err: Option<GoError>)
      modifies this`loanHistory
      ensures var i := FirstIndex(old(loanHistory), LoanHistoryId, id);
              if i < |old(loanHistory)| then err.None? && loanHistory == RemoveAt(old(loanHistory), i)
              else err == Some(Plain("loan history not found")) && loanHistory == old(loanHistory)
    {
      var i := FindFirst(loanHistory, LoanHistoryId, id);
      if i < |loanHistory| {
        loanHistory := RemoveAt(loanHistory, i);
        return None;
      }
      return Some(Plain("loan history not found"));
    }

    /** GetMembersByName: every member with that name in slice order; an error when there is none. */
    method GetMembersByName(name: string) returns (r: Result<seq<Member>, GoError>)
      ensures var found := Matching(members, MemberName, name);
              r == if found == [] then Failure(Plain("member not found")) else Success(found)
    {
      var found := CollectMatching(members, MemberName, name);
      if |found| == 0 {
        return Failure(Plain("member not found"));
      }
      return Success(found);
    }

    /** GetBooksByTitle: every book with that title in slice order; an error when there is none. */
    method GetBooksByTitle(title: string) returns (r: Result<seq<Book>, GoError>)
      ensures var found := Matching(books, BookTitle, title);
              r == if found == [] then Failure(Plain("book not found")) else Success(found)
    {
      var found := CollectMatching(books, BookTitle, title);
      if |found| == 0 {
        return Failure(Plain("book not found"));
      }
      return Success(found);
    }

    /** GetMemberByEmail: the first member whose email matches. */
    method GetMemberByEmail(email: string) returns (r: Result<Member, GoError>)
      ensures var i := FirstIndex(members, MemberEmail, email);
              r == if i < |members| then Success(members[i]) else Failure(Plain("member not found"))
    {
      var i := FindFirst(members, MemberEmail, email);
      if i < |members| {
        return Success(members[i]);
      }
      return Failure(Plain("member not found"));
    }

    /** GetMemberByAddress: the first member whose address matches. */
    method GetMemberByAddress(address: string) returns (r: Result<Member, GoError>)
      ensures var i := FirstIndex(members, MemberAddress, address);
              r == if i < |members| then Success(members[i]) else Failure(Plain("member not found"))
    {
      var i := FindFirst(members, MemberAddress, address);
      if i < |members| {
        return Success(members[i]);
      }
      return Failure(Plain("member not found"));
    }

    /** GetMemberByPhoneNumber: the first member whose phone number matches. */
    method GetMemberByPhoneNumber(phoneNumber: string) returns (r: Result<Member, GoError>)
      ensures var i := FirstIndex(members, MemberPhoneNumber, phoneNumber);
              r == if i < |members| then Success(members[i]) else Failure(Plain("member not found"))
    {
      var i := FindFirst(members, MemberPhoneNumber, phoneNumber);
      if i < |members| {
        return Success(members[i]);
      }
      return Failure(Plain("member not found"));
    }

    /** GetMemberByGender: the first member whose gender matches. */
    method GetMemberByGender(gender: string) returns (r: Result<Member, GoError>)
      ensures var i := FirstIndex(members, MemberGender, gender);
              r == if i < |members| then Success(members[i]) else Failure(Plain("member not found"))
    {
      var i := FindFirst(members, MemberGender, gender);
      if i < |members| {
        return Success(members[i]);
      }
      return Failure(Plain("member not found"));
    }

    /** GetMembersByMembershipType: the first member whose membership type matches. */
    method GetMembersByMembershipType(membershipType: string) returns (r: Result<Member, GoError>)
      ensures var i := FirstIndex(members, MemberMembershipType, membershipType);
              r == if i < |members| then Success(members[i]) else Failure(Plain("member not found"))
    {
      var i := FindFirst(members, MemberMembershipType, membershipType);
      if i < |members| {
        return Success(members[i]);
      }
      return Failure(Plain("member not found"));
    }

    /** GetMembersByRegistrationDate: the first member whose registration date matches. */
    method GetMembersByRegistrationDate(registrationDate: Time) returns (r: Result<Member, GoError>)
      ensures var i := FirstIndex(members, MemberRegistrationDate, registrationDate);
              r == if i < |members| then Success(members[i]) else Failure(Plain("member not found"))
    {
      var i := FindFirst(members, MemberRegistrationDate, registrationDate);
      if i < |members| {
        return Success(members[i]);
      }
      return Failure(Plain("member not found"));
    }

    /** GetAllNotifications: the stored slice itself. */
    method GetAllNotifications() returns (r: seq<Notification>, err: Option<GoError>)
      ensures r == notifications && err.None?
    {
      return notifications, None;
    }

    /** GetNotificationByID: the first entry with that id. */
    method GetNotificationByID(id: int) returns (r: Result<Notification, GoError>)
      ensures var i := FirstIndex(notifications, NotificationId, id);
              r == if i < |notifications| then Success(notifications[i]) else Failure(Plain("notification not found"))
    {
      var i := FindFirst(notifications, NotificationId, id);
      if i < |notifications| {
        return Success(notifications[i]);
      }
      return Failure(Plain("notification not found"));
    }

    /** CreateNotification: the id is the old length plus one, written back through the
        pointer, and the entry is appended last. */
    method CreateNotification(x: Ref<Notification>) returns (err: Option<GoError>)
      modifies this`notifications, x
      ensures x.value == old(x.value).(id := |old(notifications)| + 1)
      ensures notifications == old(notifications) + [x.value]
      ensures err.None?
    {
      x.value := x.value.(id := |notifications| + 1);
      notifications := notifications + [x.value];
      return None;
    }

    /** UpdateNotification: replaces the first entry with the same id, and only that one. */
    method UpdateNotification(x: Notification) returns (err: Option<GoError>)
      modifies this`notifications
      ensures var i := FirstIndex(old(notifications), NotificationId, x.id);
              if i < |old(notifications)| then err.None? && notifications == old(notifications)[i := x]
              else err == Some(Plain("notification not found")) && notifications == old(notifications)
    {
      var i := FindFirst(notifications, NotificationId, x.id);
      if i < |notifications| {
        notifications := notifications[i := x];
        return None;
      }
      return Some(Plain("notification not found"));
    }

    /** DeleteNotification: cuts the first entry with that id out of the slice. */
    method DeleteNotification(id: int) returns (err: Option<GoError>)
      modifies this`notifications
      ensures var i := FirstIndex(old(notifications), NotificationId, id);
              if i < |old(notifications)| then err.None? && notifications == RemoveAt(old(notifications), i)
              else err == Some(Plain("notification not found")) && notifications == old(notifications)
    {
      var i := FindFirst(notifications, NotificationId, id);
      if i < |notifications| {
        notifications := RemoveAt(notifications, i);
        return None;
      }
      return Some(Plain("notification not found"));
    }

    /** GetNotificationsByMemberID: every notification for that member in slice order; an error when there is none. */
    method GetNotificationsByMemberID(memberId: int) returns (r: Result<seq<Notification>, GoError>)
      ensures var found := Matching(notifications, NotificationMemberId, memberId);
              r == if found == [] then Failure(Plain("notification not found")) else Success(found)
    {
      var found := CollectMatching(notifications, NotificationMemberId, memberId);
      if |found| == 0 {
        return Failure(Plain("notification not found"));
      }
      return Success(found);
    }

    /** GetMembersByLastLoginDate: ignores the date and returns every member. */
    method GetMembersByLastLoginDate(date: Time) returns (r: seq<Member>, err: Option<GoError>)
      ensures r == members && err.None?
    {
      return members, None;
    }
  }

  /** After a delete, creating hands out an id that a surviving entry still
      has: when the last entry carries id `len` (as it does when nothing was
      deleted yet), deleting any earlier entry and creating again yields the
      last entry's id a second time. */
  lemma CreateAfterDeleteRepeatsId(loans: seq<Loan>, id: int, x: Loan)
    requires |loans| >= 2 && loans[|loans| - 1].id == |loans|
    requires FirstIndex(loans, LoanId, id) < |loans| - 1
    ensures var rest := RemoveAt(loans, FirstIndex(loans, LoanId, id));
            var created := x.(id := |rest| + 1);
            created.id == rest[|rest| - 1].id && (rest + [created])[|rest| - 1].id == created.id
  {
  }
}
