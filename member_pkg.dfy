/** Package member (member/member.go): a member record and its id
    generator, a copy of the one in package models. */
module MemberPkg {
  import opened Records
  import MapScan

  datatype Member = Member(
    id: int, name: string, email: string, password: string, phoneNumber: string,
    address: string, registrationDate: Time, membershipType: string)

  datatype Credentials = Credentials(email: string, password: string)

  /** The dynamic type of the `interface{}` handed to generateID. */
  datatype IdSource = MemberMap(members: map<int, Member>) | OtherValue

  /** generateID: the next id for a member map; 1 for any other argument. */
  method GenerateID(src: IdSource) returns (id: int)
    ensures src.MemberMap? ==> MapScan.IsNextId(src.members.Keys, id)
    ensures src.OtherValue? ==> id == 1
    ensures id >= 1
  {
    match src
    case MemberMap(m) =>
      id := MapScan.MaxKeyPlusOne(m);
    case OtherValue =>
      id := 1;
  }
}
