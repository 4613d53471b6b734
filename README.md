# Restful-Perpustakaan-API core, modelled in Dafny

Restful-Perpustakaan-API is a library-management REST service written in Go.
This project models the parts of it that hold logic rather than HTTP or SQL
plumbing, and proves properties of that model:

- the two in-memory stores of package `database`:
  - the slice-backed `*Database` (ids are `len + 1`, searches run front to back);
  - the package-level maps with id counters (notifications, books, reviews,
    members and users, loans);
- the member and book handlers of package `loan` over its maps, and the
  `generateID` helper in its three copies;
- loan date stamping in `LoanService`;
- the authentication flow:
  - `AuthService.Login` / `Register` over an abstract repository;
  - the `Login` / `Register` HTTP handlers over the package store;
  - the JWT middleware;
- the validators, `AppError` and its error-to-response mapping;
- the member/user converters, and configuration loading from the environment.

Conventions of the model:

- **Types.** Go's `int` is an unbounded `int`; timestamps are whole seconds
  since the Unix epoch.
- **Errors.** A Go `error` is `Option<GoError>` (None is nil). A `GoError`
  is a plain text, an `AppError`, or a wrapper around another error.
- **State.** Structures the source updates in place are classes:
  `Database.Database`, `PackageStore.Store` and `LoanPkg.Storage`. A Go
  pointer whose target the callee writes is a `Pointers.Ref`.
- **Map iteration order.** Go does not specify the order of `range` over a
  map. The model chooses an arbitrary order, and enumerations return that
  order as a ghost sequence of keys.
- **Request handling.**
  - The clock reading is a parameter `now`.
  - A request is reduced to its path parameter and decoded JSON body. A body
    that does not decode is None.
  - A handler's answer is an `Http.Response`.
- **External services.** bcrypt and JWT signing/parsing are uninterpreted
  function parameters (`Security.Crypto`, `AuthMiddleware.Authenticate`'s
  `parse`). The SQL repositories are represented by the answers they give
  (`AuthService.MemberRepository`, `LoanService.LoanRepository`).

Where the source would not compile, the model follows the evident intent:

- **database/database.go:889** reads `Username` from a `member.Member`, a
  type that has no such field. The auth handler also passes a `models.Member`
  to the package store. The package store therefore holds `models.Member`.
- **app/services/loan_service.go** uses `models.Loan`, which does not exist.
  The loan record of `app/loan` is used instead.

## Model

| member | source | states |
|---|---|---|
| Decimal.Itoa | app/services/auth_service.go:51 | `strconv.Itoa`: a sign for negatives, then decimal digits whose value is the magnitude |
| Decimal.Atoi | app/config/config.go:90 | `strconv.Atoi`: a value exactly for an optional sign followed by one or more digits, within the int64 range; None otherwise |
| Decimal.AtoiItoa | app/config/config.go:88-94 | every int64 printed by Itoa parses back to itself |
| Decimal.ItoaInjective | app/services/auth_service.go:51 | distinct int64 values print differently |
| ErrorUtils.ErrorText | app/utils/error_utils.go:17-19 | `AppError.Error` is "Error " + decimal code + ": " + message |
| ErrorUtils.NewAppError | app/utils/error_utils.go:22-24 | code and message are stored unchanged |
| ErrorUtils.Chain | app/utils/error_utils.go:29 | the unwrap chain starts at the error itself |
| ErrorUtils.AsAppError | app/utils/error_utils.go:29 | `errors.As` finds an AppError iff one is in the chain, and what it finds is in the chain |
| ErrorUtils.FirstAppErrorWins | app/utils/error_utils.go:29 | the AppError nearest the head of the chain is the one found |
| ErrorUtils.HandleError | app/utils/error_utils.go:27-37 | with an AppError in the chain, the reply is some AppError of the chain's code and message; without one, 500 "Internal Server Error" |
| ErrorUtils.HandleError2 | app/utils/error_utils.go:40-50 | answers every error exactly as HandleError |
| ErrorUtils.HandleError3 | app/utils/error_utils.go:53-63 | answers every error exactly as HandleError |
| ErrorUtils.HandlersAgree | app/utils/error_utils.go:40-63 | HandleError2 and HandleError3 answer exactly as HandleError for every error |
| ErrorUtils.WrappingKeepsReply | app/utils/error_utils.go:27-37 | wrapping an error does not change the reply |
| ErrorUtils.BuriedAppErrorDecides | app/utils/error_utils.go:28-31 | an AppError under any number of wrappers decides the reply |
| ErrorUtils.OtherErrorsAreInternal | app/utils/error_utils.go:32-36 | a chain without an AppError always gets 500 "Internal Server Error" |
| SeqScan.FirstIndex | database/database.go:91-96 | the index of the first entry whose key matches, or the length when none does |
| SeqScan.FindFirst | database/database.go:91-96 | the front-to-back search loop returns exactly FirstIndex |
| SeqScan.Matching | database/database.go:261-272 | exactly the entries whose key matches, in slice order |
| SeqScan.MatchingAppend | database/database.go:261-272 | filtering distributes over concatenation (order is kept) |
| SeqScan.CollectMatching | database/database.go:263-267 | the filtering loop returns exactly Matching |
| SeqScan.RemoveAt | database/database.go:121 | re-slicing around index i drops that entry and keeps the rest in order |
| MapScan.EnumerationSize | database/database.go:420-428 | a duplicate-free key order covering a key set has its size |
| MapScan.Enumerate | database/database.go:420-428 | one output per selected key, each key once, in some order |
| MapScan.FindAny | database/database.go:952-961 | a value is found iff some entry matches, and what is found is a matching stored value |
| MapScan.MaxKeyPlusOne | app/loan/loan.go:71-77 | the `maxID` loop gives a next id: above every key, and 1 or one more than a key |
| MapScan.NextIdProperties | app/models/member.go:45-51 | with a positive maximum key the next id is that maximum + 1 and not a key |
| MapScan.NextIdWithoutPositiveKeys | app/models/member.go:42-44 | with no positive key (the empty map included) the next id is 1 |
| Models.GenerateID | app/models/member.go:39-55 | next id for a member map, 1 for any other argument, never below 1 |
| MemberPkg.GenerateID | member/member.go:29-45 | next id for a member map, 1 for any other argument, never below 1 |
| LoanPkg.GenerateID | app/loan/loan.go:65-92 | next id for a member or book map, 1 for any other argument, never below 1 |
| LoanPkg.Storage.constructor | app/loan/loan.go:60-61 | both maps start empty |
| LoanPkg.Storage.GetAllMembers | app/loan/loan.go:95-102 | 200 with every stored member exactly once |
| LoanPkg.Storage.GetMemberByID | app/loan/loan.go:105-119 | 400 "Invalid ID" for a non-integer id, 404 for an absent key, else 200 with the stored member |
| LoanPkg.Storage.CreateMember | app/loan/loan.go:122-132 | 400 on a bad body; otherwise the member is stored under a fresh next id, client id ignored, the map grows by that key only |
| LoanPkg.Storage.CreateBook | app/loan/loan.go:135-145 | same as CreateMember for books |
| LoanPkg.Storage.UpdateMember | app/loan/loan.go:148-168 | 400 on a bad id or body, 404 and no change for an absent key, else only that entry replaced with the id forced to the path id |
| LoanPkg.Storage.DeleteMember | app/loan/loan.go:171-185 | 400 on a bad id, 404 and no change for an absent key, else exactly that key removed and 204 |
| LoanPkg.Storage.GetAllBooks | app/loan/loan.go:188-195 | 200 with every stored book exactly once |
| LoanPkg.Storage.GetBookByID | app/loan/loan.go:198-212 | 400 for a non-integer id, 404 for an absent key, else 200 with the stored book |
| LoanPkg.Storage.UpdateBook | app/loan/loan.go:215-235 | as UpdateMember, for books |
| LoanPkg.Storage.DeleteBook | app/loan/loan.go:238-252 | as DeleteMember, for books |
| LoanPkg.CreatedKeyIsNew | app/loan/loan.go:129-130 | storing under the generated id adds exactly one new key |
| Database.Database.constructor | database/database.go:79-87 | every slice starts empty |
| Database.Database.GetMemberByID | database/database.go:90-97 | the first member with that id, else "member not found" |
| Database.Database.CreateMember | database/database.go:100-104 | id := old length + 1, written back; appended last; earlier entries unchanged |
| Database.Database.UpdateMember | database/database.go:107-115 | only the first entry with that id replaced; else "member not found" and no change |
| Database.Database.DeleteMember | database/database.go:118-126 | exactly the first match removed, the rest in order; else "member not found" and no change |
| Database.Database.GetAllBooks | database/database.go:129-131 | the stored slice |
| Database.Database.GetBookByID | database/database.go:134-141 | the first book with that id, else "book not found" |
| Database.Database.CreateBook | database/database.go:144-148 | id := old length + 1; appended last |
| Database.Database.UpdateBook | database/database.go:151-159 | first match replaced, else "book not found" and no change |
| Database.Database.DeleteBook | database/database.go:162-170 | first match removed, else "book not found" and no change |
| Database.Database.GetAllLoans | database/database.go:173-175 | the stored slice |
| Database.Database.GetLoanByID | database/database.go:178-185 | the first loan with that id, else "loan not found" |
| Database.Database.CreateLoan | database/database.go:188-192 | id := old length + 1; appended last |
| Database.Database.UpdateLoan | database/database.go:195-203 | only the first matching loan replaced; else "loan not found" and no change |
| Database.Database.DeleteLoan | database/database.go:206-214 | exactly the first match removed, order kept; else "loan not found" and no change |
| Database.Database.GetAllLoanHistories | database/database.go:217-219 | the stored slice |
| Database.Database.GetLoanHistoryByID | database/database.go:222-229 | the first entry with that id, else "loan history not found" |
| Database.Database.CreateLoanHistory | database/database.go:232-236 | id := old length + 1; appended last |
| Database.Database.UpdateLoanHistory | database/database.go:239-247 | first match replaced, else "loan history not found" and no change |
| Database.Database.DeleteLoanHistory | database/database.go:250-258 | first match removed, else "loan history not found" and no change |
| Database.Database.GetMembersByName | database/database.go:261-272 | exactly the members with that name in slice order; an error exactly when there is none |
| Database.Database.GetBooksByTitle | database/database.go:275-286 | exactly the books with that title in slice order; an error exactly when there is none |
| Database.Database.GetMemberByEmail | database/database.go:289-296 | the first member with that email, else "member not found" |
| Database.Database.GetMemberByAddress | database/database.go:299-306 | the first member with that address, else "member not found" |
| Database.Database.GetMemberByPhoneNumber | database/database.go:309-316 | the first member with that phone number, else "member not found" |
| Database.Database.GetMemberByGender | database/database.go:319-326 | the first member with that gender, else "member not found" |
| Database.Database.GetMembersByMembershipType | database/database.go:329-336 | the first member of that type (one, despite the name), else "member not found" |
| Database.Database.GetMembersByRegistrationDate | database/database.go:339-346 | the first member registered at that instant, else "member not found" |
| Database.Database.GetAllNotifications | database/database.go:349-351 | the stored slice |
| Database.Database.CreateNotification | database/database.go:354-358 | id := old length + 1; appended last |
| Database.Database.GetNotificationsByMemberID | database/database.go:361-372 | exactly that member's notifications in slice order; an error exactly when there is none |
| Database.Database.GetNotificationByID | database/database.go:375-382 | the first notification with that id, else "notification not found" |
| Database.Database.UpdateNotification | database/database.go:385-393 | first match replaced, else "notification not found" and no change |
| Database.Database.DeleteNotification | database/database.go:396-404 | first match removed, else "notification not found" and no change |
| Database.Database.GetMembersByLastLoginDate | database/database.go:406-409 | the date is ignored: every member, no error |
| Database.CreateAfterDeleteRepeatsId | database/database.go:188-192 | after deleting an earlier loan, the next create repeats the id of the last surviving loan |
| PackageStore.AllRead | database/database.go:483-491 | same keys, every entry read, nothing but `Read` changed |
| PackageStore.MembersAfterCreate | database/database.go:900-908 | the member lands under `len + 1`, replacing any member there; other keys untouched |
| PackageStore.MemberFromUser | database/database.go:850-867 | only ID, Name and Email survive; every other field is zero |
| PackageStore.UserFromMember | database/database.go:924-937 | ID, Name, Email and Password copied; Username empty |
| PackageStore.Store.constructor | database/database.go:411-418 | empty maps, every counter at 1 (books, members and loans declared at lines 666-671) |
| PackageStore.Store.GetAllNotifications | database/database.go:420-428 | every stored notification exactly once |
| PackageStore.Store.GetNotificationByID | database/database.go:430-438 | the entry under that key, else "notification not found" |
| PackageStore.Store.CreateNotification | database/database.go:440-447 | the id is the counter, never used before; counter + 1; only that key added |
| PackageStore.Store.UpdateNotification | database/database.go:449-458 | replaces an existing key only; else "notification not found" and no change |
| PackageStore.Store.DeleteNotification | database/database.go:460-469 | removes an existing key only; else "notification not found" and no change |
| PackageStore.Store.MarkNotificationAsRead | database/database.go:471-481 | sets `Read` (not `IsRead`) on that key only; else "notification not found" and no change |
| PackageStore.Store.MarkAllNotificationsAsRead | database/database.go:483-491 | the map becomes AllRead of the old map |
| PackageStore.Store.GetUnreadNotificationsCount | database/database.go:493-503 | the number of entries without `Read` |
| PackageStore.Store.GetAllUnreadNotificationsCount | database/database.go:505-507 | the same count |
| PackageStore.Store.GetAllNotificationsCount | database/database.go:509-513 | the number of entries |
| PackageStore.Store.GetNotificationByName | database/database.go:516-525 | a stored notification with that name, an error iff there is none |
| PackageStore.Store.GetNotificationByCategory | database/database.go:528-537 | a stored notification with that category, an error iff there is none |
| PackageStore.Store.GetNotificationByReceiver | database/database.go:540-549 | a stored notification with that receiver, an error iff there is none |
| PackageStore.Store.GetNotificationBySender | database/database.go:552-561 | a stored notification with that sender, an error iff there is none |
| PackageStore.Store.GetAllBooks | database/database.go:674-682 | every stored book exactly once |
| PackageStore.Store.GetBookByID | database/database.go:685-693 | the entry under that key, else "book not found" |
| PackageStore.Store.CreateBook | database/database.go:696-703 | the id is the book counter, never used before; counter + 1; only that key added |
| PackageStore.Store.UpdateBook | database/database.go:706-715 | replaces an existing key only; else "book not found" and no change |
| PackageStore.Store.DeleteBook | database/database.go:718-727 | removes an existing key only; else "book not found" and no change |
| PackageStore.Store.GetAllReviews | database/database.go:730-738 | every stored review exactly once |
| PackageStore.Store.GetReviewByID | database/database.go:741-749 | the entry under that key, else "review not found" |
| PackageStore.Store.CreateReview | database/database.go:752-759 | the id is the review counter, never used before; counter + 1; only that key added |
| PackageStore.Store.UpdateReview | database/database.go:762-771 | replaces an existing key only; else "review not found" and no change |
| PackageStore.Store.DeleteReview | database/database.go:774-783 | removes an existing key only; else "review not found" and no change |
| PackageStore.Store.GetReviewsByBookID | database/database.go:786-796 | exactly the reviews of that book, each once; none is not an error |
| PackageStore.Store.GetReviewsForBook | database/database.go:870-880 | the same answer as GetReviewsByBookID |
| PackageStore.Store.GetTotalMembers | database/database.go:799-803 | the number of members |
| PackageStore.Store.GetTotalBooks | database/database.go:806-810 | the number of books |
| PackageStore.Store.GetTotalLoans | database/database.go:813-817 | the number of loans |
| PackageStore.Store.GetOverdueLoans | database/database.go:820-830 | exactly the number of loans overdue at `now` |
| PackageStore.OverdueBoundary | database/database.go:833-835 | not overdue at the due instant; one second later overdue iff not returned |
| PackageStore.Store.GetLoanReport | database/database.go:911-921 | exactly the loans with start < due < end, each once |
| PackageStore.ReportWindowIsOpen | database/database.go:916 | loans due exactly at either end are left out |
| PackageStore.Store.DeleteUser | database/database.go:838-847 | removes an existing key only; else "user not found" and no change |
| PackageStore.Store.UpdateUser | database/database.go:850-867 | an existing key gets MemberFromUser (password reset); else "user not found" and no change |
| PackageStore.Store.CreateUser | database/database.go:883-897 | a taken username gives "user already exists" and no change; else the user counter is the id and counter + 1 |
| PackageStore.Store.CreateMember | database/database.go:900-908 | id := len + 1, written back; the map becomes MembersAfterCreate; never an error |
| PackageStore.Store.GetAllUsers | database/database.go:924-937 | UserFromMember of every member, each once |
| PackageStore.Store.UpdateMember | database/database.go:940-949 | replaces an existing key only; else "member not found" and no change |
| PackageStore.Store.GetMemberByEmail | database/database.go:952-961 | a stored member with exactly that email, an error iff there is none |
| PackageStore.NothingUnreadAfterMarkAll | database/database.go:483-503 | after marking all read, the unread count is 0 |
| PackageStore.CreateDeleteCreateOverwrites | database/database.go:900-908 | create, create, delete the first, create: the second member is overwritten |
| PackageStore.UserCounterMeetsMemberKeys | database/database.go:883-908 | on a fresh store, CreateMember(a) then CreateUser(u) with a different username succeeds, and u under key 1 replaces the member: both counters start at 1 |
| PackageStore.SameUsernameRefused | database/database.go:883-892 | the same sequence with the member's username is refused with "user already exists", and the member stays under key 1 |
| PackageStore.IsOverdue | database/database.go:833-835 | a returned loan is never overdue; nor is one at or before its due date; an unreturned loan strictly past its due date is |
| LoanService.Borrowed | app/services/loan_service.go:35 | BorrowDate becomes `now`; DueDate and every other field pass through |
| LoanService.Stamped | app/services/loan_service.go:46-49 | a returned loan gets ReturnDate = `now`; an unreturned one is unchanged |
| LoanService.CreateLoan | app/services/loan_service.go:30-38 | the loan becomes Borrowed(loan, now); the repository's answer is returned as is |
| LoanService.UpdateLoan | app/services/loan_service.go:41-52 | the loan becomes Stamped(loan, now); the repository's answer is returned as is |
| LoanService.ReturnIsNotIdempotent | app/services/loan_service.go:46-49 | returning twice moves ReturnDate to the later `now` |
| LoanService.ReturnDateWithoutReturnedSurvives | app/services/loan_service.go:46 | an unreturned loan keeps a return date it was sent with: flag and date are independent |
| LoanService.DueDatePassesThrough | app/services/loan_service.go:30-52 | create then return leaves DueDate as sent |
| Security.LoginClaims | app/services/auth_service.go:48-52 | expiry now + 24h; the subject parses back to the member id |
| Security.SubjectIdentifiesMember | app/services/auth_service.go:51 | two login tokens share a subject only for the same member |
| AuthService.Login | app/services/auth_service.go:29-61 | missing field fails first; lookup errors pass through; success only for a found member whose password matches, with the signer's token for LoginClaims and the injected key |
| AuthService.LoginAfterLookup | app/services/auth_service.go:42-58 | with a member found: "invalid email or password" iff the comparison fails, else the signer's answer |
| AuthService.LoginRejectsBeforeLookup | app/services/auth_service.go:31-33 | a login missing a field does not depend on the repository |
| AuthService.Register | app/services/auth_service.go:64-93 | required fields, then existing email, then hash error each fail with nothing stored; otherwise (and only then) the password is replaced by the hash and that member is handed to CreateMember, whose error is returned |
| AuthHandler.LoginReply | app/handlers/auth_handler.go:38-63 | 401 iff the password does not match; 200 carries `{"token"}` signed with "your_secret_key" over LoginClaims; never 400 or 404 |
| AuthHandler.Login | app/handlers/auth_handler.go:17-64 | 400 for a bad body or missing field; 404 exactly when no member has the email; otherwise LoginReply for a member with that email |
| AuthHandler.Register | app/handlers/auth_handler.go:67-113 | 400 / 400 / 400 / 409 / 500 in that order with nothing stored; else 201 echoing the stored member, password hashed, id len + 1 |
| AuthHandler.UnknownEmailAndWrongPasswordDiffer | app/handlers/auth_handler.go:32-43 | a wrong password gets 401, never the 404 an unknown email gets |
| AuthMiddleware.TrimPrefix | app/middleware/auth_middleware.go:20 | one leading copy of the prefix is dropped if present; otherwise the header is used whole |
| AuthMiddleware.BearerTokenRecovered | app/middleware/auth_middleware.go:20 | "Bearer " + t yields t |
| AuthMiddleware.LowerCaseSchemeKept | app/middleware/auth_middleware.go:20 | the prefix match is case-sensitive: for every token, a header `bearer <token>` is kept whole |
| AuthMiddleware.Authenticate | app/middleware/auth_middleware.go:12-40 | 401 "Authorization header missing" / "Invalid token" / "Invalid token claims" in that order; forwarded only for a valid token with standard claims, stored under "claims" |
| AuthMiddleware.OnlyTheFixedKeyMatters | app/middleware/auth_middleware.go:22 | the decision depends only on what the parser answers for "your_secret_key" |
| Validation.Utf8Length | app/utils/validation_utils.go:23 | `len` in bytes: between the character count and four times it |
| Validation.AsciiLength | app/utils/validation_utils.go:23 | on ASCII text the byte length is the character count |
| Validation.ValidatePassword | app/utils/validation_utils.go:18-43 | true iff at least 8 bytes with an upper-case letter, a lower-case letter and a digit; false below 8 bytes |
| Validation.OtherCharactersIgnored | app/utils/validation_utils.go:27-40 | characters outside the three classes change none of the flags |
| Validation.ValidateStringLength | app/utils/validation_utils.go:48-50 | true iff min <= byte length <= max; never true when min > max |
| Validation.IndexOf | app/utils/validation_utils.go:12 | the first occurrence of a character, or the length |
| Validation.LastIndexOf | app/utils/validation_utils.go:12 | the last occurrence of a character, or -1 |
| Validation.AcceptedMatchesPattern | app/utils/validation_utils.go:12-13 | what the recogniser accepts splits as the pattern demands |
| Validation.PatternAccepted | app/utils/validation_utils.go:12-13 | every split the pattern allows is accepted |
| Validation.ValidateEmail | app/utils/validation_utils.go:9-14 | an accepted address has a non-empty part before its first `@` and at least four characters after it |
| Validation.MatchedAccepted | app/utils/validation_utils.go:9-14 | every string the regular expression matches is accepted by ValidateEmail |
| Validation.EmailRecogniserMatchesPattern | app/utils/validation_utils.go:9-14 | ValidateEmail accepts exactly the strings the regular expression matches |
| Validation.AcceptedEmailHasOneAt | app/utils/validation_utils.go:12 | an accepted address holds exactly one `@` |
| Validation.AcceptedEmailTopLabel | app/utils/validation_utils.go:12 | after its last `.` an accepted address has two or more letters and nothing else |
| Converters.ConvertMemberToUser | app/converters/convert.go:9-15 | ID kept, Username := Name, Email, Password and Name empty |
| Converters.ConvertUserToMember | app/converters/convert.go:18-24 | ID kept, Name := Username, every other field zero |
| Converters.MemberRoundTrip | app/converters/convert.go:9-24 | member → user → member keeps ID and Name and resets the rest |
| Converters.UserRoundTrip | app/converters/convert.go:9-24 | user → member → user keeps ID and Username; identity iff Email, Password and Name are empty |
| Config.Getenv | app/config/config.go:80 | `os.Getenv`: "" for an unset variable |
| Config.Loaded | app/config/config.go:43 | the `.env` file supplies only variables the process lacks |
| Config.GetEnv | app/config/config.go:79-85 | the default iff the value is empty, set or not |
| Config.GetEnvAsInt | app/config/config.go:88-94 | the parsed value when Atoi accepts the text; the default otherwise |
| Config.LoadConfig | app/config/config.go:41-76 | always succeeds; DatabaseURL stays ""; the JWT fields come from their variables or defaults |
| Config.EmptyEnvironmentDefaults | app/config/config.go:50-73 | with nothing set, every field has its default (8080, 5432, "your_secret_key", 3600, …) |
| Config.GetEnvAsIntReadsDecimal | app/config/config.go:88-94 | any int64 written in decimal comes back as itself |
| Config.ZeroIsNotDefault | app/config/config.go:90-91 | "0" gives 0, not the default |
| Config.ProcessEnvironmentWins | app/config/config.go:79-85 | a process variable beats the `.env` file; set-but-empty counts as unset |

## Left out

- The mutex and all concurrency: each locked function is one atomic step.
- `GetRecommendations` and `GetPersonalizedRecommendations`: their behaviour is SQL text run by the driver.
- The SQL repositories are not modelled. The services see only the answers the repositories give.
- `LoanService.GetAllLoans`, `GetLoanByID` and `DeleteLoan` only forward the repository's answer; nothing of theirs is modelled.
- `LoanService.CreateLoan` and `UpdateLoan`: a repository writing into the loan through the pointer (for example, setting its ID) is not represented.
- bcrypt, HMAC-SHA256 and JWT encoding are uninterpreted. Nothing is assumed about them, so properties such as "a hash matches its own password" are out of reach.
- The clock is the parameter `now`. `time.Time` is whole seconds: monotonic readings, time zones and sub-second precision are left out.
- Go's 64-bit `int` wrap-around (e.g. `generateID` on a map holding the maximum int) is not modelled: ids are unbounded.
- Logging (`fmt.Println` in `LoadConfig`) is left out, and so are JSON encoding and decoding. A body that does not decode is the only decoding outcome modelled.
- `ErrorUtils.HandleError` (and `HandleError2`, `HandleError3`): an AppError whose status code lies outside 100..999 makes Go's `http.Error` panic in `WriteHeader`; the model answers with that code as it is.
- `ErrorUtils.HandleError` (and `HandleError2`, `HandleError3`): a nil error, which Go answers with 500 "Internal Server Error", is not representable; the model's error parameter is always an error.
- `Database.Database.GetAllBooks`, `GetAllLoans`, `GetAllLoanHistories`, `GetAllNotifications`: Go returns the backing slice itself, so a later `Update` (which assigns an element) or `Delete` (which shifts elements with `append`) changes what an earlier caller holds. The model returns a copy of the sequence; that aliasing is not represented.
- HTTP responses: the trailing newline `http.Error` appends and the `Content-Type` header are left out.
- `AuthHandler.Register`: the 500 branch after `database.CreateMember` is left out. That function never returns an error, so the branch cannot run.
- `Validation.ValidatePassword`: only ASCII letters and digits count as upper-case, lower-case or numeric. Go's `unicode.IsUpper`, `IsLower` and `IsNumber` also accept non-ASCII letters and numerals (for example `É`, `ß`, `²`).
- `Validation.ValidateEmail` is a hand-written recogniser, proved equal to the regular expression read as a pattern (EmailRecogniserMatchesPattern). The regular-expression engine itself is not modelled.
- `Config.LoadConfig`: a `.env` file that loads only partly before a syntax error is not modelled. The file either loads completely or not at all.
- The float `Rating` of books is left out.
- Handlers other than authentication, the pass-through services, routing, the admin and logging middleware, `cmd/main.go` and `testing/testMain.go` are not part of this model.
