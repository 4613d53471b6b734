/** Package loan (app/loan/loan.go): record types, the `generateID` helper,
    and the member and book handlers that work on the package's maps.  The
    request is reduced to the `{id}` path parameter and the JSON body, the
    body being None when it does not decode. */
module LoanPkg {
  import opened Wrappers
  import opened Records
  import opened Http
  import Decimal
  import MapScan

  /** loan.Loan: the one loan record with a `Returned` flag; `ReturnDate` is a
      nilable pointer. */
  datatype Loan = Loan(
    id: int, memberId: int, bookId: int, borrowDate: Time, dueDate: Time,
    returnDate: Option<Time>, returned: bool)

  datatype Member = Member(id: int, name: string)

  datatype Book = Book(id: int, title: string, author: string)

  /** The dynamic type of the `interface{}` handed to generateID. */
  datatype IdSource = MemberMap(members: map<int, Member>) | BookMap(books: map<int, Book>) | OtherValue

  /** generateID: the next id for a member or book map; 1 for anything else. */
  method GenerateID(src: IdSource) returns (id: int)
    ensures src.MemberMap? ==> MapScan.IsNextId(src.members.Keys, id)
    ensures src.BookMap? ==> MapScan.IsNextId(src.books.Keys, id)
    ensures src.OtherValue? ==> id == 1
    ensures id >= 1
  {
    match src
    case MemberMap(m) =>
      id := MapScan.MaxKeyPlusOne(m);
    case BookMap(b) =>
      id := MapScan.MaxKeyPlusOne(b);
    case OtherValue =>
      id := 1;
  }

  const InvalidIdText: string := "Invalid ID"
  const BadRequestText: string := "Bad Request"

  /** The package-level `members` and `books` maps. */
  class Storage {
    var members: map<int, Member>
    var books: map<int, Book>

    constructor ()
      ensures members == map[] && books == map[]
    {
      members, books := map[], map[];
    }

    /** GetAllMembers: every stored member once, in map order. */
    method GetAllMembers() returns (resp: Response<seq<Member>>, ghost keys: seq<int>)
      ensures resp.Json? && resp.status == StatusOK
      ensures MapScan.Distinct(keys) && forall k :: k in keys <==> k in members
      ensures |resp.body| == |keys|
      ensures forall i :: 0 <= i < |keys| ==> keys[i] in members && resp.body[i] == members[keys[i]]
    {
      var list;
      list, keys := MapScan.Enumerate(members, (m: Member) => true, (m: Member) => m);
      resp := Json(StatusOK, list);
    }

    /** GetMemberByID: 400 for a non-numeric id, 404 for an unknown one. */
    method GetMemberByID(idParam: string) returns (resp: Response<Member>)
      ensures Decimal.Atoi(idParam).None? ==> resp == Error(StatusBadRequest, InvalidIdText)
      ensures Decimal.Atoi(idParam).Some? ==>
                var id := Decimal.Atoi(idParam).value;
                resp == if id in members then Json(StatusOK, members[id]) else Error(StatusNotFound, NotFoundText)
    {
      var parsed := Decimal.Atoi(idParam);
      if parsed.None? {
        return Error(StatusBadRequest, InvalidIdText);
      }
      var id := parsed.value;
      if id !in members {
        return Error(StatusNotFound, NotFoundText);
      }
      return Json(StatusOK, members[id]);
    }

    /** CreateMember: the body's own id is ignored; the member is stored under
        a fresh id, which the reply echoes. */
    method CreateMember(body: Option<Member>) returns (resp: Response<Member>)
      modifies this`members
      ensures body.None? ==> resp == Error(StatusBadRequest, BadRequestText) && members == old(members)
      ensures body.Some? ==>
                && resp.Json? && resp.status == StatusOK
                && resp.body == body.value.(id := resp.body.id)
                && MapScan.IsNextId(old(members).Keys, resp.body.id)
                && members == old(members)[resp.body.id := resp.body]
    {
      if body.None? {
        return Error(StatusBadRequest, BadRequestText);
      }
      var id := GenerateID(MemberMap(members));
      var newMember := body.value.(id := id);
      members := members[id := newMember];
      return Json(StatusOK, newMember);
    }

    /** CreateBook: as CreateMember, for books. */
    method CreateBook(body: Option<Book>) returns (resp: Response<Book>)
      modifies this`books
      ensures body.None? ==> resp == Error(StatusBadRequest, BadRequestText) && books == old(books)
      ensures body.Some? ==>
                && resp.Json? && resp.status == StatusOK
                && resp.body == body.value.(id := resp.body.id)
                && MapScan.IsNextId(old(books).Keys, resp.body.id)
                && books == old(books)[resp.body.id := resp.body]
    {
      if body.None? {
        return Error(StatusBadRequest, BadRequestText);
      }
      var id := GenerateID(BookMap(books));
      var newBook := body.value.(id := id);
      books := books[id := newBook];
      return Json(StatusOK, newBook);
    }

    /** UpdateMember: the path id wins over the body's; only an existing
        entry is replaced. */
    method UpdateMember(idParam: string, body: Option<Member>) returns (resp: Response<Member>)
      modifies this`members
      ensures Decimal.Atoi(idParam).None? ==> resp == Error(StatusBadRequest, InvalidIdText) && members == old(members)
      ensures Decimal.Atoi(idParam).Some? && body.None? ==>
                resp == Error(StatusBadRequest, BadRequestText) && members == old(members)
      ensures Decimal.Atoi(idParam).Some? && body.Some? ==>
                var id := Decimal.Atoi(idParam).value;
                if id in old(members) then
                  resp == Json(StatusOK, body.value.(id := id)) && members == old(members)[id := body.value.(id := id)]
                else
                  resp == Error(StatusNotFound, NotFoundText) && members == old(members)
    {
      var parsed := Decimal.Atoi(idParam);
      if parsed.None? {
        return Error(StatusBadRequest, InvalidIdText);
      }
      var id := parsed.value;
      if body.None? {
        return Error(StatusBadRequest, BadRequestText);
      }
      var updated := body.value.(id := id);
      if id !in members {
        return Error(StatusNotFound, NotFoundText);
      }
      members := members[id := updated];
      return Json(StatusOK, updated);
    }

    /** DeleteMember: removes exactly that key, or answers 404. */
    method DeleteMember(idParam: string) returns (resp: Response<()>)
      modifies this`members
      ensures Decimal.Atoi(idParam).None? ==> resp == Error(StatusBadRequest, InvalidIdText) && members == old(members)
      ensures Decimal.Atoi(idParam).Some? ==>
                var id := Decimal.Atoi(idParam).value;
                if id in old(members) then
                  resp == Empty(StatusNoContent) && members == old(members) - {id}
                else
                  resp == Error(StatusNotFound, NotFoundText) && members == old(members)
    {
      var parsed := Decimal.Atoi(idParam);
      if parsed.None? {
        return Error(StatusBadRequest, InvalidIdText);
      }
      var id := parsed.value;
      if id !in members {
        return Error(StatusNotFound, NotFoundText);
      }
      members := members - {id};
      return Empty(StatusNoContent);
    }

    /** GetAllBooks: every stored book once, in map order. */
    method GetAllBooks() returns (resp: Response<seq<Book>>, ghost keys: seq<int>)
      ensures resp.Json? && resp.status == StatusOK
      ensures MapScan.Distinct(keys) && forall k :: k in keys <==> k in books
      ensures |resp.body| == |keys|
      ensures forall i :: 0 <= i < |keys| ==> keys[i] in books && resp.body[i] == books[keys[i]]
    {
      var list;
      list, keys := MapScan.Enumerate(books, (b: Book) => true, (b: Book) => b);
      resp := Json(StatusOK, list);
    }

    /** GetBookByID: 400 for a non-numeric id, 404 for an unknown one. */
    method GetBookByID(idParam: string) returns (resp: Response<Book>)
      ensures Decimal.Atoi(idParam).None? ==> resp == Error(StatusBadRequest, InvalidIdText)
      ensures Decimal.Atoi(idParam).Some? ==>
                var id := Decimal.Atoi(idParam).value;
                resp == if id in books then Json(StatusOK, books[id]) else Error(StatusNotFound, NotFoundText)
    {
      var parsed := Decimal.Atoi(idParam);
      if parsed.None? {
        return Error(StatusBadRequest, InvalidIdText);
      }
      var id := parsed.value;
      if id !in books {
        return Error(StatusNotFound, NotFoundText);
      }
      return Json(StatusOK, books[id]);
    }

    /** UpdateBook: as UpdateMember, for books. */
    method UpdateBook(idParam: string, body: Option<Book>) returns (resp: Response<Book>)
      modifies this`books
      ensures Decimal.Atoi(idParam).None? ==> resp == Error(StatusBadRequest, InvalidIdText) && books == old(books)
      ensures Decimal.Atoi(idParam).Some? && body.None? ==>
                resp == Error(StatusBadRequest, BadRequestText) && books == old(books)
      ensures Decimal.Atoi(idParam).Some? && body.Some? ==>
                var id := Decimal.Atoi(idParam).value;
                if id in old(books) then
                  resp == Json(StatusOK, body.value.(id := id)) && books == old(books)[id := body.value.(id := id)]
                else
                  resp == Error(StatusNotFound, NotFoundText) && books == old(books)
    {
      var parsed := Decimal.Atoi(idParam);
      if parsed.None? {
        return Error(StatusBadRequest, InvalidIdText);
      }
      var id := parsed.value;
      if body.None? {
        return Error(StatusBadRequest, BadRequestText);
      }
      var updated := body.value.(id := id);
      if id !in books {
        return Error(StatusNotFound, NotFoundText);
      }
      books := books[id := updated];
      return Json(StatusOK, updated);
    }

    /** DeleteBook: removes exactly that key, or answers 404. */
    method DeleteBook(idParam: string) returns (resp: Response<()>)
      modifies this`books
      ensures Decimal.Atoi(idParam).None? ==> resp == Error(StatusBadRequest, InvalidIdText) && books == old(books)
      ensures Decimal.Atoi(idParam).Some? ==>
                var id := Decimal.Atoi(idParam).value;
                if id in old(books) then
                  resp == Empty(StatusNoContent) && books == old(books) - {id}
                else
                  resp == Error(StatusNotFound, NotFoundText) && books == old(books)
    {
      var parsed := Decimal.Atoi(idParam);
      if parsed.None? {
        return Error(StatusBadRequest, InvalidIdText);
      }
      var id := parsed.value;
      if id !in books {
        return Error(StatusNotFound, NotFoundText);
      }
      books := books - {id};
      return Empty(StatusNoContent);
    }
  }

  /** A created member's key is new: the map gains exactly that one key. */
  lemma CreatedKeyIsNew(before: map<int, Member>, id: int, m: Member)
    requires MapScan.IsNextId(before.Keys, id)
    ensures id !in before
    ensures before[id := m].Keys == before.Keys + {id}
    ensures |before[id := m]| == |before| + 1
  {
  }
}
