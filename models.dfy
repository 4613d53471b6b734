/** Package models (app/models/member.go): the member record the
    authentication code and the package-level store work with, and its id
    generator. */
module Models {
  import opened Records
  import MapScan

  datatype Member = Member(
    id: int, name: string, email: string, password: string, phoneNumber: string,
    address: string, registrationDate: Time, membershipType: string,
    username: string, gender: string)

  /** The zero value `models.Member{}`. */
  const ZeroMember: Member := Member(0, "", "", "", "", "", 0, "", "", "")

  datatype User = User(id: int, username: string, email: string, password: string)

  datatype Credentials = Credentials(email: string, password: string)

  /** The dynamic type of the `interface{}` handed to generateID. */
  datatype IdSource = MemberMap(members: map<int, Member>) | OtherValue

  /** generateID: the next id for a member map; 1 for any other argument. */
  method GenerateID(src: IdSource) returns (id: int)
    ensures src.MemberMap? ==> MapScan.IsNextId(src.members.Keys, id)
    ensures src.OtherValue? ==> id == 1
    ensures id >= 1
  {
    match src
    case MemberMap(m) =>
      id := MapScan.MaxKeyPlusOne(m);
    case OtherValue =>
      id := 1;
  }
}
