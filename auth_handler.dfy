/** Package handlers, auth_handler.go: the Login and Register HTTP
    handlers over the package-level member store.  A request is reduced to
    its decoded JSON body (None when it does not decode); the clock reading
    is `now`, bcrypt and JWT signing come from `Crypto`. */
module AuthHandler {
  import opened Wrappers
  import opened Records
  import opened Pointers
  import opened Http
  import opened Security
  import Models
  import PackageStore
  import Validation

  type Member = Models.Member

  const InvalidBodyText: string := "Invalid request body"
  const CredentialsRequiredText: string := "Email and password are required"
  const MemberNotFoundText: string := "Member not found"
  const InvalidCredentialsText: string := "Invalid email or password"
  const TokenErrorText: string := "Error generating token"
  const FieldsRequiredText: string := "Name, email, and password are required"
  const InvalidEmailText: string := "Invalid email format"
  const EmailExistsText: string := "Email already exists"
  const HashErrorText: string := "Error hashing password"

  /** What Login answers once it holds a member with the requested email:
      401 on a password mismatch, 500 when signing fails, otherwise the
      token, signed with the fixed key, as `{"token": ...}`. */
  function LoginReply(member: Member, credentials: Models.Credentials, crypto: Crypto, now: Time): (resp: Response<map<string, string>>)
    ensures resp.status != StatusNotFound && resp.status != StatusBadRequest
    ensures resp == Error(StatusUnauthorized, InvalidCredentialsText) <==>
              !crypto.compareHashAndPassword(member.password, credentials.password)
    ensures resp.Json? ==>
              && resp.status == StatusOK
              && crypto.compareHashAndPassword(member.password, credentials.password)
              && resp.body.Keys == {"token"}
              && crypto.signedString(LoginClaims(member.id, now), HardCodedKey) == Success(resp.body["token"])
    ensures resp.Json? || resp == Error(StatusUnauthorized, InvalidCredentialsText) ||
            resp == Error(StatusInternalServerError, TokenErrorText)
  {
    if !crypto.compareHashAndPassword(member.password, credentials.password) then
      Error(StatusUnauthorized, InvalidCredentialsText)
    else
      match crypto.signedString(LoginClaims(member.id, now), HardCodedKey)
      case Failure(_) => Error(StatusInternalServerError, TokenErrorText)
      case Success(token) => Json(StatusOK, map["token" := token])
  }

  /** Login: the body, the required fields, the lookup, then LoginReply for
      the member found.  Nothing in the store changes. */
  method Login(store: PackageStore.Store, body: Option<Models.Credentials>, crypto: Crypto, now: Time)
    returns (resp: Response<map<string, string>>)
    ensures body.None? ==> resp == Error(StatusBadRequest, InvalidBodyText)
    ensures body.Some? && (body.value.email == "" || body.value.password == "") ==>
              resp == Error(StatusBadRequest, CredentialsRequiredText)
    ensures body.Some? && body.value.email != "" && body.value.password != "" ==>
              && ((forall k :: k in store.members ==> store.members[k].email != body.value.email) ==>
                    resp == Error(StatusNotFound, MemberNotFoundText))
              && ((exists k :: k in store.members && store.members[k].email == body.value.email) ==>
                    exists m :: m in store.members.Values && m.email == body.value.email &&
                                resp == LoginReply(m, body.value, crypto, now))
    ensures resp.status == StatusNotFound <==>
              && body.Some? && body.value.email != "" && body.value.password != ""
              && forall k :: k in store.members ==> store.members[k].email != body.value.email
  {
    if body.None? {
      return Error(StatusBadRequest, InvalidBodyText);
    }
    var credentials := body.value;
    if credentials.email == "" || credentials.password == "" {
      return Error(StatusBadRequest, CredentialsRequiredText);
    }
    var found := store.GetMemberByEmail(credentials.email);
    if found.Failure? {
      return Error(StatusNotFound, MemberNotFoundText);
    }
    resp := LoginReply(found.value, credentials, crypto, now);
  }

  /** Register: the body, the required fields, the email pattern, an
      existing email, hashing, then package CreateMember; the reply echoes
      the stored member, hashed password included. */
  method Register(store: PackageStore.Store, body: Option<Member>, crypto: Crypto)
    returns (resp: Response<Member>)
    requires store.Valid()
    modifies store`members
    ensures store.Valid()
    ensures body.None? ==>
              resp == Error(StatusBadRequest, InvalidBodyText) && store.members == old(store.members)
    ensures body.Some? && (body.value.name == "" || body.value.email == "" || body.value.password == "") ==>
              resp == Error(StatusBadRequest, FieldsRequiredText) && store.members == old(store.members)
    ensures body.Some? && body.value.name != "" && body.value.email != "" && body.value.password != "" ==>
              && (!Validation.ValidateEmail(body.value.email) ==>
                    resp == Error(StatusBadRequest, InvalidEmailText) && store.members == old(store.members))
              && (Validation.ValidateEmail(body.value.email) &&
                  (exists k :: k in old(store.members) && old(store.members)[k].email == body.value.email) ==>
                    resp == Error(StatusConflict, EmailExistsText) && store.members == old(store.members))
              && (Validation.ValidateEmail(body.value.email) &&
                  (forall k :: k in old(store.members) ==> old(store.members)[k].email != body.value.email) ==>
                    var hashed := crypto.generateFromPassword(body.value.password);
                    && (hashed.Failure? ==>
                          resp == Error(StatusInternalServerError, HashErrorText) &&
                          store.members == old(store.members))
                    && (hashed.Success? ==>
                          var stored := body.value.(password := hashed.value);
                          && resp == Json(StatusCreated, stored.(id := |old(store.members)| + 1))
                          && store.members == PackageStore.MembersAfterCreate(old(store.members), stored)))
    ensures store.members != old(store.members) ==> resp.Json? && resp.status == StatusCreated
  {
    if body.None? {
      return Error(StatusBadRequest, InvalidBodyText);
    }
    var newMember := body.value;
    if newMember.name == "" || newMember.email == "" || newMember.password == "" {
      return Error(StatusBadRequest, FieldsRequiredText);
    }
    if !Validation.ValidateEmail(newMember.email) {
      return Error(StatusBadRequest, InvalidEmailText);
    }
    var existing := store.GetMemberByEmail(newMember.email);
    if existing.Success? {
      return Error(StatusConflict, EmailExistsText);
    }
    var hashed := crypto.generateFromPassword(newMember.password);
    if hashed.Failure? {
      return Error(StatusInternalServerError, HashErrorText);
    }
    newMember := newMember.(password := hashed.value);
    var cell := new Ref(newMember);
    store.CreateMember(cell);
    return Json(StatusCreated, cell.value);
  }

  /** An unknown email and a wrong password get different answers, so a
      caller learns which emails are registered. */
  lemma UnknownEmailAndWrongPasswordDiffer(member: Member, credentials: Models.Credentials, crypto: Crypto, now: Time)
    requires !crypto.compareHashAndPassword(member.password, credentials.password)
    ensures LoginReply(member, credentials, crypto, now) == Error(StatusUnauthorized, InvalidCredentialsText)
    ensures LoginReply(member, credentials, crypto, now) != Error(StatusNotFound, MemberNotFoundText)
  {
  }
}
