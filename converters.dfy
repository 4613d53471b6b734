/** Package converters (app/converters/convert.go): the two field maps
    between `models.Member` and `user.User`. */
module Converters {
  import Records
  import Models

  /** ConvertMemberToUser: the ID, and the member's Name as Username;
      every other user field is empty. */
  function ConvertMemberToUser(m: Models.Member): (u: Records.User)
    ensures u.id == m.id && u.username == m.name
    ensures u.email == "" && u.password == "" && u.name == ""
  {
    Records.User(id := m.id, username := m.name, email := "", password := "", name := "")
  }

  /** ConvertUserToMember: the ID, and the user's Username as Name; every
      other member field is the zero value. */
  function ConvertUserToMember(u: Records.User): (m: Models.Member)
    ensures m.id == u.id && m.name == u.username
    ensures m.(id := 0, name := "") == Models.ZeroMember
  {
    Models.ZeroMember.(id := u.id, name := u.username)
  }

  /** Member to user and back keeps ID and Name and resets the rest, so
      the trip is the identity exactly on members with nothing else set. */
  lemma MemberRoundTrip(m: Models.Member)
    ensures ConvertUserToMember(ConvertMemberToUser(m)) == Models.ZeroMember.(id := m.id, name := m.name)
    ensures ConvertUserToMember(ConvertMemberToUser(m)) == m <==> m.(id := 0, name := "") == Models.ZeroMember
  {
  }

  /** User to member and back keeps ID and Username; it is the identity
      exactly on users whose Email, Password and Name are empty. */
  lemma UserRoundTrip(u: Records.User)
    ensures ConvertMemberToUser(ConvertUserToMember(u)).id == u.id
    ensures ConvertMemberToUser(ConvertUserToMember(u)).username == u.username
    ensures ConvertMemberToUser(ConvertUserToMember(u)) == u <==> u.email == "" && u.password == "" && u.name == ""
  {
  }
}
