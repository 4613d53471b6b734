/** The package-level store of package database (database/database.go,
    from the `var` block at line 411 on): maps keyed by id, id counters and
    one mutex.  Each locked function is one atomic step here, a method of the
    single `Store` object that holds the package variables.

    The source stores `member.Member` values in `members`, yet reads a
    `Username` field from them (CreateUser) and receives `models.Member`
    values from the authentication handler; neither compiles.  The member
    map here holds `models.Member`, the record that has every field these
    functions use.  Nothing in the package ever writes `loans`. */
module PackageStore {
  import opened Wrappers
  import opened Records
  import opened ErrorUtils
  import opened Pointers
  import MapScan
  import Models
  import LoanPkg

  type Member = Models.Member
  type Loan = LoanPkg.Loan

  // The fields the lookups match on.
  function NotificationName(n: Notification): string { n.name }
  function NotificationCategory(n: Notification): string { n.category }
  function NotificationReceiver(n: Notification): string { n.receiver }
  function NotificationSender(n: Notification): string { n.sender }
  function MemberEmail(m: Member): string { m.email }
  function MemberUsername(m: Member): string { m.username }

  /** isOverdue, with the clock reading passed in: strictly after the due
      date and not returned. */
  function IsOverdue(l: Loan, now: Time): (overdue: bool)
    ensures l.returned ==> !overdue
    ensures now <= l.dueDate ==> !overdue
    ensures !l.returned && now > l.dueDate ==> overdue
  {
    now > l.dueDate && !l.returned
  }

  /** The GetLoanReport window: due strictly between the two instants. */
  predicate InReportWindow(l: Loan, start: Time, end: Time) {
    l.dueDate > start && l.dueDate < end
  }

  ghost function OverdueKeys(loans: map<int, Loan>, now: Time): set<int> {
    set k | k in loans && IsOverdue(loans[k], now)
  }

  ghost function UnreadKeys(notifications: map<int, Notification>): set<int> {
    set k | k in notifications && !notifications[k].read
  }

  /** Every notification with its `Read` flag set, nothing else changed. */
  function AllRead(notifications: map<int, Notification>): (r: map<int, Notification>)
    ensures r.Keys == notifications.Keys
    ensures forall k :: k in r ==> r[k].read && r[k].(read := notifications[k].read) == notifications[k]
  {
    map k | k in notifications :: notifications[k].(read := true)
  }

  /** The members map after package CreateMember stored `m`: under key
      `len(members) + 1`, whether or not that key is taken. */
  function MembersAfterCreate(members: map<int, Member>, m: Member): (r: map<int, Member>)
    ensures |members| + 1 in r && r[|members| + 1] == m.(id := |members| + 1)
    ensures forall k :: k in members && k != |members| + 1 ==> k in r && r[k] == members[k]
    ensures r.Keys == members.Keys + {|members| + 1}
  {
    members[|members| + 1 := m.(id := |members| + 1)]
  }

  /** UpdateUser's conversion: only ID, Name and Email survive. */
  function MemberFromUser(u: User): (m: Member)
    ensures m.id == u.id && m.name == u.name && m.email == u.email
    ensures m.(id := 0, name := "", email := "") == Models.ZeroMember
  {
    Models.ZeroMember.(id := u.id, name := u.name, email := u.email)
  }

  /** GetAllUsers' conversion: ID, Name, Email and Password; no Username. */
  function UserFromMember(m: Member): (u: User)
    ensures u.id == m.id && u.name == m.name && u.email == m.email && u.password == m.password
    ensures u.username == ""
  {
    User(id := m.id, username := "", email := m.email, password := m.password, name := m.name)
  }

  class Store {
    var notifications: map<int, Notification>
    var nextID: int
    var reviews: map<int, Review>
    var nextReviewID: int
    var nextUserID: int
    var books: map<int, Book>
    var nextBookID: int
    var members: map<int, Member>
    var loans: map<int, Loan>

    /** Every entry sits under its own id; counters stay above the ids they
        handed out. */
    ghost predicate Valid()
      reads this
    {
      && nextID >= 1 && nextReviewID >= 1 && nextBookID >= 1 && nextUserID >= 1
      && (forall k :: k in notifications ==> notifications[k].id == k && k < nextID)
      && (forall k :: k in reviews ==> reviews[k].id == k && k < nextReviewID)
      && (forall k :: k in books ==> books[k].id == k && k < nextBookID)
      && (forall k :: k in members ==> members[k].id == k)
    }

    /** The package variables' initial values. */
    constructor ()
      ensures Valid()
      ensures notifications == map[] && reviews == map[] && books == map[]
      ensures members == map[] && loans == map[]
      ensures nextID == 1 && nextReviewID == 1 && nextUserID == 1 && nextBookID == 1
    {
      notifications, reviews, books, members, loans := map[], map[], map[], map[], map[];
      nextID, nextReviewID, nextUserID, nextBookID := 1, 1, 1, 1;
    }

    // ---- notifications ----

    method GetAllNotifications() returns (r: seq<Notification>, ghost keys: seq<int>, err: Option<GoError>)
      ensures MapScan.Distinct(keys) && forall k :: k in keys <==> k in notifications
      ensures |r| == |keys|
      ensures forall i :: 0 <= i < |keys| ==> keys[i] in notifications && r[i] == notifications[keys[i]]
      ensures err.None?
    {
      r, keys := MapScan.Enumerate(notifications, (n: Notification) => true, (n: Notification) => n);
      err := None;
    }

    method GetNotificationByID(id: int) returns (r: Result<Notification, GoError>)
      ensures id in notifications ==> r == Success(notifications[id])
      ensures id !in notifications ==> r == Failure(Plain("notification not found"))
    {
      if id !in notifications {
        return Failure(Plain("notification not found"));
      }
      return Success(notifications[id]);
    }

    /** CreateNotification: the next counter value, never handed out before. */
    method CreateNotification(n: Ref<Notification>) returns (err: Option<GoError>)
      requires Valid()
      modifies this`notifications, this`nextID, n
      ensures Valid()
      ensures n.value == old(n.value).(id := old(nextID))
      ensures old(nextID) !in old(notifications)
      ensures nextID == old(nextID) + 1
      ensures notifications == old(notifications)[n.value.id := n.value]
      ensures err.None?
    {
      n.value := n.value.(id := nextID);
      nextID := nextID + 1;
      notifications := notifications[n.value.id := n.value];
      return None;
    }

    method UpdateNotification(n: Notification) returns (err: Option<GoError>)
      requires Valid()
      modifies this`notifications
      ensures Valid()
      ensures n.id in old(notifications) ==> err.None? && notifications == old(notifications)[n.id := n]
      ensures n.id !in old(notifications) ==>
                err == Some(Plain("notification not found")) && notifications == old(notifications)
    {
      if n.id !in notifications {
        return Some(Plain("notification not found"));
      }
      notifications := notifications[n.id := n];
      return None;
    }

    method DeleteNotification(id: int) returns (err: Option<GoError>)
      requires Valid()
      modifies this`notifications
      ensures Valid()
      ensures id in old(notifications) ==> err.None? && notifications == old(notifications) - {id}
      ensures id !in old(notifications) ==>
                err == Some(Plain("notification not found")) && notifications == old(notifications)
    {
      if id !in notifications {
        return Some(Plain("notification not found"));
      }
      notifications := notifications - {id};
      return None;
    }

    /** MarkNotificationAsRead: sets `Read` (not `IsRead`) on that entry only. */
    method MarkNotificationAsRead(id: int) returns (err: Option<GoError>)
      requires Valid()
      modifies this`notifications
      ensures Valid()
      ensures id in old(notifications) ==>
                err.None? && notifications == old(notifications)[id := old(notifications)[id].(read := true)]
      ensures id !in old(notifications) ==>
                err == Some(Plain("notification not found")) && notifications == old(notifications)
    {
      if id !in notifications {
        return Some(Plain("notification not found"));
      }
      var notif := notifications[id];
      notif := notif.(read := true);
      notifications := notifications[id := notif];
      return None;
    }

    method MarkAllNotificationsAsRead() returns (err: Option<GoError>)
      requires Valid()
      modifies this`notifications
      ensures Valid()
      ensures notifications == AllRead(old(notifications))
      ensures err.None?
    {
      var remaining := notifications.Keys;
      while remaining != {}
        invariant remaining <= notifications.Keys
        invariant notifications.Keys == old(notifications).Keys
        invariant forall k :: k in notifications ==>
                    notifications[k] == if k in remaining then old(notifications)[k]
                                        else old(notifications)[k].(read := true)
        decreases remaining
      {
        MapScan.NoElementMeansEmpty(remaining);
        var id :| id in remaining;
        var notif := notifications[id];
        notif := notif.(read := true);
        notifications := notifications[id := notif];
        remaining := remaining - {id};
      }
      ghost var expected := AllRead(old(notifications));
      assert notifications.Keys == expected.Keys;
      assert forall k :: k in notifications ==> notifications[k] == expected[k];
      return None;
    }

    /** GetUnreadNotificationsCount: how many entries do not have `Read` set. */
    method GetUnreadNotificationsCount() returns (count: int, err: Option<GoError>)
      ensures count == |UnreadKeys(notifications)|
      ensures err.None?
    {
      count := 0;
      var remaining := notifications.Keys;
      while remaining != {}
        invariant remaining <= notifications.Keys
        invariant count == |UnreadKeys(notifications) - remaining|
        decreases remaining
      {
        MapScan.NoElementMeansEmpty(remaining);
        var id :| id in remaining;
        ghost var counted := UnreadKeys(notifications) - remaining;
        if !notifications[id].read {
          assert UnreadKeys(notifications) - (remaining - {id}) == counted + {id};
          count := count + 1;
        } else {
          assert UnreadKeys(notifications) - (remaining - {id}) == counted;
        }
        remaining := remaining - {id};
      }
      assert UnreadKeys(notifications) - remaining == UnreadKeys(notifications);
      return count, None;
    }

    /** GetAllUnreadNotificationsCount: the same count. */
    method GetAllUnreadNotificationsCount() returns (count: int, err: Option<GoError>)
      ensures count == |UnreadKeys(notifications)|
      ensures err.None?
    {
      count, err := GetUnreadNotificationsCount();
    }

    method GetAllNotificationsCount() returns (count: int, err: Option<GoError>)
      ensures count == |notifications| && err.None?
    {
      return |notifications|, None;
    }

    method GetNotificationByName(name: string) returns (r: Result<Notification, GoError>)
      ensures r.Failure? <==> forall k :: k in notifications ==> notifications[k].name != name
      ensures r.Failure? ==> r.error == Plain("notification not found")
      ensures r.Success? ==> r.value in notifications.Values && r.value.name == name
    {
      var found := MapScan.FindAny(notifications, NotificationName, name);
      if found.None? {
        return Failure(Plain("notification not found"));
      }
      return Success(found.value);
    }

    method GetNotificationByCategory(category: string) returns (r: Result<Notification, GoError>)
      ensures r.Failure? <==> forall k :: k in notifications ==> notifications[k].category != category
      ensures r.Failure? ==> r.error == Plain("notification not found")
      ensures r.Success? ==> r.value in notifications.Values && r.value.category == category
    {
      var found := MapScan.FindAny(notifications, NotificationCategory, category);
      if found.None? {
        return Failure(Plain("notification not found"));
      }
      return Success(found.value);
    }

    method GetNotificationByReceiver(receiver: string) returns (r: Result<Notification, GoError>)
      ensures r.Failure? <==> forall k :: k in notifications ==> notifications[k].receiver != receiver
      ensures r.Failure? ==> r.error == Plain("notification not found")
      ensures r.Success? ==> r.value in notifications.Values && r.value.receiver == receiver
    {
      var found := MapScan.FindAny(notifications, NotificationReceiver, receiver);
      if found.None? {
        return Failure(Plain("notification not found"));
      }
      return Success(found.value);
    }

    method GetNotificationBySender(sender: string) returns (r: Result<Notification, GoError>)
      ensures r.Failure? <==> forall k :: k in notifications ==> notifications[k].sender != sender
      ensures r.Failure? ==> r.error == Plain("notification not found")
      ensures r.Success? ==> r.value in notifications.Values && r.value.sender == sender
    {
      var found := MapScan.FindAny(notifications, NotificationSender, sender);
      if found.None? {
        return Failure(Plain("notification not found"));
      }
      return Success(found.value);
    }

    // ---- books ----

    method GetAllBooks() returns (r: seq<Book>, ghost keys: seq<int>, err: Option<GoError>)
      ensures MapScan.Distinct(keys) && forall k :: k in keys <==> k in books
      ensures |r| == |keys|
      ensures forall i :: 0 <= i < |keys| ==> keys[i] in books && r[i] == books[keys[i]]
      ensures err.None?
    {
      r, keys := MapScan.Enumerate(books, (b: Book) => true, (b: Book) => b);
      err := None;
    }

    method GetBookByID(id: int) returns (r: Result<Book, GoError>)
      ensures id in books ==> r == Success(books[id])
      ensures id !in books ==> r == Failure(Plain("book not found"))
    {
      if id !in books {
        return Failure(Plain("book not found"));
      }
      return Success(books[id]);
    }

    /** CreateBook: the next counter value, never handed out before. */
    method CreateBook(b: Ref<Book>) returns (err: Option<GoError>)
      requires Valid()
      modifies this`books, this`nextBookID, b
      ensures Valid()
      ensures b.value == old(b.value).(id := old(nextBookID))
      ensures old(nextBookID) !in old(books)
      ensures nextBookID == old(nextBookID) + 1
      ensures books == old(books)[b.value.id := b.value]
      ensures err.None?
    {
      b.value := b.value.(id := nextBookID);
      nextBookID := nextBookID + 1;
      books := books[b.value.id := b.value];
      return None;
    }

    method UpdateBook(b: Book) returns (err: Option<GoError>)
      requires Valid()
      modifies this`books
      ensures Valid()
      ensures b.id in old(books) ==> err.None? && books == old(books)[b.id := b]
      ensures b.id !in old(books) ==> err == Some(Plain("book not found")) && books == old(books)
    {
      if b.id !in books {
        return Some(Plain("book not found"));
      }
      books := books[b.id := b];
      return None;
    }

    method DeleteBook(id: int) returns (err: Option<GoError>)
      requires Valid()
      modifies this`books
      ensures Valid()
      ensures id in old(books) ==> err.None? && books == old(books) - {id}
      ensures id !in old(books) ==> err == Some(Plain("book not found")) && books == old(books)
    {
      if id !in books {
        return Some(Plain("book not found"));
      }
      books := books - {id};
      return None;
    }

    // ---- reviews ----

    method GetAllReviews() returns (r: seq<Review>, ghost keys: seq<int>, err: Option<GoError>)
      ensures MapScan.Distinct(keys) && forall k :: k in keys <==> k in reviews
      ensures |r| == |keys|
      ensures forall i :: 0 <= i < |keys| ==> keys[i] in reviews && r[i] == reviews[keys[i]]
      ensures err.None?
    {
      r, keys := MapScan.Enumerate(reviews, (v: Review) => true, (v: Review) => v);
      err := None;
    }

    method GetReviewByID(id: int) returns (r: Result<Review, GoError>)
      ensures id in reviews ==> r == Success(reviews[id])
      ensures id !in reviews ==> r == Failure(Plain("review not found"))
    {
      if id !in reviews {
        return Failure(Plain("review not found"));
      }
      return Success(reviews[id]);
    }

    /** CreateReview: the next counter value, never handed out before. */
    method CreateReview(v: Ref<Review>) returns (err: Option<GoError>)
      requires Valid()
      modifies this`reviews, this`nextReviewID, v
      ensures Valid()
      ensures v.value == old(v.value).(id := old(nextReviewID))
      ensures old(nextReviewID) !in old(reviews)
      ensures nextReviewID == old(nextReviewID) + 1
      ensures reviews == old(reviews)[v.value.id := v.value]
      ensures err.None?
    {
      v.value := v.value.(id := nextReviewID);
      nextReviewID := nextReviewID + 1;
      reviews := reviews[v.value.id := v.value];
      return None;
    }

    method UpdateReview(v: Review) returns (err: Option<GoError>)
      requires Valid()
      modifies this`reviews
      ensures Valid()
      ensures v.id in old(reviews) ==> err.None? && reviews == old(reviews)[v.id := v]
      ensures v.id !in old(reviews) ==> err == Some(Plain("review not found")) && reviews == old(reviews)
    {
      if v.id !in reviews {
        return Some(Plain("review not found"));
      }
      reviews := reviews[v.id := v];
      return None;
    }

    method DeleteReview(id: int) returns (err: Option<GoError>)
      requires Valid()
      modifies this`reviews
      ensures Valid()
      ensures id in old(reviews) ==> err.None? && reviews == old(reviews) - {id}
      ensures id !in old(reviews) ==> err == Some(Plain("review not found")) && reviews == old(reviews)
    {
      if id !in reviews {
        return Some(Plain("review not found"));
      }
      reviews := reviews - {id};
      return None;
    }

    /** GetReviewsByBookID: the reviews of that book, in map order; an empty
        result is not an error. */
    method GetReviewsByBookID(bookId: int) returns (r: seq<Review>, ghost keys: seq<int>, err: Option<GoError>)
      ensures MapScan.Distinct(keys) && forall k :: k in keys <==> k in reviews && reviews[k].bookId == bookId
      ensures |r| == |keys|
      ensures forall i :: 0 <= i < |keys| ==> keys[i] in reviews && r[i] == reviews[keys[i]]
      ensures err.None?
    {
      r, keys := MapScan.Enumerate(reviews, (v: Review) => v.bookId == bookId, (v: Review) => v);
      err := None;
    }

    /** GetReviewsForBook: a second copy of GetReviewsByBookID. */
    method GetReviewsForBook(bookId: int) returns (r: seq<Review>, ghost keys: seq<int>, err: Option<GoError>)
      ensures MapScan.Distinct(keys) && forall k :: k in keys <==> k in reviews && reviews[k].bookId == bookId
      ensures |r| == |keys|
      ensures forall i :: 0 <= i < |keys| ==> keys[i] in reviews && r[i] == reviews[keys[i]]
      ensures err.None?
    {
      r, keys, err := GetReviewsByBookID(bookId);
    }

    // ---- totals and loans ----

    method GetTotalMembers() returns (total: int, err: Option<GoError>)
      ensures total == |members| && err.None?
    {
      return |members|, None;
    }

    method GetTotalBooks() returns (total: int, err: Option<GoError>)
      ensures total == |books| && err.None?
    {
      return |books|, None;
    }

    method GetTotalLoans() returns (total: int, err: Option<GoError>)
      ensures total == |loans| && err.None?
    {
      return |loans|, None;
    }

    /** GetOverdueLoans: how many loans are overdue at `now`. */
    method GetOverdueLoans(now: Time) returns (count: int, err: Option<GoError>)
      ensures count == |OverdueKeys(loans, now)|
      ensures err.None?
    {
      count := 0;
      var remaining := loans.Keys;
      while remaining != {}
        invariant remaining <= loans.Keys
        invariant count == |OverdueKeys(loans, now) - remaining|
        decreases remaining
      {
        MapScan.NoElementMeansEmpty(remaining);
        var id :| id in remaining;
        ghost var counted := OverdueKeys(loans, now) - remaining;
        if IsOverdue(loans[id], now) {
          assert OverdueKeys(loans, now) - (remaining - {id}) == counted + {id};
          count := count + 1;
        } else {
          assert OverdueKeys(loans, now) - (remaining - {id}) == counted;
        }
        remaining := remaining - {id};
      }
      assert OverdueKeys(loans, now) - remaining == OverdueKeys(loans, now);
      return count, None;
    }

    /** GetLoanReport: the loans due strictly between `start` and `end`. */
    method GetLoanReport(start: Time, end: Time) returns (r: seq<Loan>, ghost keys: seq<int>, err: Option<GoError>)
      ensures MapScan.Distinct(keys)
      ensures forall k :: k in keys <==> k in loans && InReportWindow(loans[k], start, end)
      ensures |r| == |keys|
      ensures forall i :: 0 <= i < |keys| ==> keys[i] in loans && r[i] == loans[keys[i]]
      ensures err.None?
    {
      r, keys := MapScan.Enumerate(loans, (l: Loan) => InReportWindow(l, start, end), (l: Loan) => l);
      err := None;
    }

    // ---- users and members ----

    method DeleteUser(id: int) returns (err: Option<GoError>)
      requires Valid()
      modifies this`members
      ensures Valid()
      ensures id in old(members) ==> err.None? && members == old(members) - {id}
      ensures id !in old(members) ==> err == Some(Plain("user not found")) && members == old(members)
    {
      if id !in members {
        return Some(Plain("user not found"));
      }
      members := members - {id};
      return None;
    }

    /** UpdateUser: the stored member keeps only ID, Name and Email from the
        user; every other field, the password included, is reset. */
    method UpdateUser(u: User) returns (err: Option<GoError>)
      requires Valid()
      modifies this`members
      ensures Valid()
      ensures u.id in old(members) ==> err.None? && members == old(members)[u.id := MemberFromUser(u)]
      ensures u.id !in old(members) ==> err == Some(Plain("user not found")) && members == old(members)
    {
      if u.id !in members {
        return Some(Plain("user not found"));
      }
      var m := Models.ZeroMember;
      m := m.(id := u.id);
      m := m.(name := u.name);
      m := m.(email := u.email);
      members := members[u.id := m];
      return None;
    }

    /** CreateUser: refuses a username already present; otherwise takes the
        user counter (which nothing keeps apart from CreateMember's keys). */
    method CreateUser(m: Ref<Member>) returns (err: Option<GoError>)
      requires Valid()
      modifies this`members, this`nextUserID, m
      ensures Valid()
      ensures (exists k :: k in old(members) && old(members)[k].username == old(m.value).username) ==>
                && err == Some(Plain("user already exists"))
                && members == old(members) && nextUserID == old(nextUserID) && m.value == old(m.value)
      ensures (forall k :: k in old(members) ==> old(members)[k].username != old(m.value).username) ==>
                && err.None?
                && m.value == old(m.value).(id := old(nextUserID))
                && nextUserID == old(nextUserID) + 1
                && members == old(members)[m.value.id := m.value]
    {
      var existing := MapScan.FindAny(members, MemberUsername, m.value.username);
      if existing.Some? {
        return Some(Plain("user already exists"));
      }
      m.value := m.value.(id := nextUserID);
      nextUserID := nextUserID + 1;
      members := members[m.value.id := m.value];
      return None;
    }

    /** Package CreateMember: the key is `len(members) + 1`, which after a
        delete can be the key of a member still stored. */
    method CreateMember(m: Ref<Member>)
      requires Valid()
      modifies this`members, m
      ensures Valid()
      ensures m.value == old(m.value).(id := |old(members)| + 1)
      ensures members == MembersAfterCreate(old(members), old(m.value))
    {
      var nextMemberID := |members| + 1;
      m.value := m.value.(id := nextMemberID);
      members := members[m.value.id := m.value];
    }

    method GetAllUsers() returns (users: seq<User>, ghost keys: seq<int>, err: Option<GoError>)
      ensures MapScan.Distinct(keys) && forall k :: k in keys <==> k in members
      ensures |users| == |keys|
      ensures forall i :: 0 <= i < |keys| ==> keys[i] in members && users[i] == UserFromMember(members[keys[i]])
      ensures err.None?
    {
      users, keys := MapScan.Enumerate(members, (m: Member) => true, UserFromMember);
      err := None;
    }

    method UpdateMember(m: Member) returns (err: Option<GoError>)
      requires Valid()
      modifies this`members
      ensures Valid()
      ensures m.id in old(members) ==> err.None? && members == old(members)[m.id := m]
      ensures m.id !in old(members) ==> err == Some(Plain("member not found")) && members == old(members)
    {
      if m.id !in members {
        return Some(Plain("member not found"));
      }
      members := members[m.id := m];
      return None;
    }

    /** GetMemberByEmail: some member with exactly that email (case matters). */
    method GetMemberByEmail(email: string) returns (r: Result<Member, GoError>)
      ensures r.Failure? <==> forall k :: k in members ==> members[k].email != email
      ensures r.Failure? ==> r.error == Plain("member not found")
      ensures r.Success? ==> r.value in members.Values && r.value.email == email
    {
      var found := MapScan.FindAny(members, MemberEmail, email);
      if found.None? {
        return Failure(Plain("member not found"));
      }
      return Success(found.value);
    }
  }

  /** Not overdue at the exact due instant, overdue one second later unless
      returned. */
  lemma OverdueBoundary(l: Loan)
    ensures !IsOverdue(l, l.dueDate)
    ensures IsOverdue(l, l.dueDate + 1) <==> !l.returned
  {
  }

  /** Both ends of the report window are left out. */
  lemma ReportWindowIsOpen(l: Loan, start: Time, end: Time)
    ensures l.dueDate == start ==> !InReportWindow(l, start, end)
    ensures l.dueDate == end ==> !InReportWindow(l, start, end)
    ensures end <= start + 1 ==> !InReportWindow(l, start, end)
  {
  }

  /** After MarkAllNotificationsAsRead nothing is unread. */
  lemma {:induction false} NothingUnreadAfterMarkAll(notifications: map<int, Notification>)
    ensures UnreadKeys(AllRead(notifications)) == {}
  {
    var all := AllRead(notifications);
    forall k | k in all ensures all[k].read {
    }
  }

  /** Create twice, delete the first, create again: the third member is
      stored under key 2 and the second member is gone. */
  lemma CreateDeleteCreateOverwrites(a: Member, b: Member, c: Member)
    ensures var once := MembersAfterCreate(map[], a);
            var twice := MembersAfterCreate(once, b);
            var thrice := MembersAfterCreate(twice - {1}, c);
            && twice.Keys == {1, 2} && twice[2] == b.(id := 2)
            && thrice.Keys == {2} && thrice[2] == c.(id := 2)
  {
    var once := MembersAfterCreate(map[], a);
    var twice := MembersAfterCreate(once, b);
    assert |twice - {1}| == 1 by {
      assert (twice - {1}).Keys == {2};
    }
  }

  /** The user counter and CreateMember's `len + 1` start at the same key:
      a CreateUser after a first CreateMember replaces that member. */
  /** A fresh store, CreateMember(a), then CreateUser(u) under another
      username: both counters start at 1, so the user lands on key 1 and
      replaces the member. */
  method UserCounterMeetsMemberKeys(a: Member, u: Member) returns (err: Option<GoError>, members: map<int, Member>)
    requires u.username != a.username
    ensures err.None?
    ensures members.Keys == {1} && members[1] == u.(id := 1)
  {
    var s := new Store();
    var ra := new Ref(a);
    s.CreateMember(ra);
    assert s.members == map[1 := a.(id := 1)];
    var ru := new Ref(u);
    err := s.CreateUser(ru);
    members := s.members;
  }

  /** The same sequence with the member's username: CreateUser refuses and
      the member stays. */
  method SameUsernameRefused(a: Member, u: Member) returns (err: Option<GoError>, members: map<int, Member>)
    requires u.username == a.username
    ensures err == Some(Plain("user already exists"))
    ensures members == map[1 := a.(id := 1)]
  {
    var s := new Store();
    var ra := new Ref(a);
    s.CreateMember(ra);
    assert s.members[1].username == u.username;
    var ru := new Ref(u);
    err := s.CreateUser(ru);
    members := s.members;
  }
}
