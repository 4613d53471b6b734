/** AuthService (app/services/auth_service.go): login and registration over
    a member repository, with bcrypt and JWT signing supplied as `Crypto`
    and the clock reading as `now`. */
module AuthService {
  import opened Wrappers
  import opened Records
  import opened ErrorUtils
  import opened Pointers
  import opened Security
  import Models

  type Member = Models.Member

  /** The two member repository calls the service makes.  A lookup answers
      a member exactly when it answers no error. */
  datatype MemberRepository = MemberRepository(
    getMemberByEmail: string -> Result<Member, GoError>,
    createMember: Member -> Option<GoError>)

  datatype Service = Service(memberRepository: MemberRepository, secretKey: string)

  const CredentialsRequiredText: string := "email and password are required"
  const InvalidCredentialsText: string := "invalid email or password"
  const FieldsRequiredText: string := "name, email, and password are required"
  const EmailExistsText: string := "email already exists"

  /** Login: required fields, then the lookup, then the password, then the
      token, each failure ending the attempt. */
  function Login(service: Service, credentials: Models.Credentials, crypto: Crypto, now: Time): (r: Result<string, GoError>)
    ensures credentials.email == "" || credentials.password == "" ==>
              r == Failure(Plain(CredentialsRequiredText))
    ensures credentials.email != "" && credentials.password != "" &&
            service.memberRepository.getMemberByEmail(credentials.email).Failure? ==>
              r == Failure(service.memberRepository.getMemberByEmail(credentials.email).error)
    ensures r.Success? ==>
              && credentials.email != "" && credentials.password != ""
              && var found := service.memberRepository.getMemberByEmail(credentials.email);
                 && found.Success?
                 && crypto.compareHashAndPassword(found.value.password, credentials.password)
                 && crypto.signedString(LoginClaims(found.value.id, now), service.secretKey) == r
  {
    if credentials.email == "" || credentials.password == "" then
      Failure(Plain(CredentialsRequiredText))
    else
      match service.memberRepository.getMemberByEmail(credentials.email)
      case Failure(e) => Failure(e)
      case Success(member) =>
        if !crypto.compareHashAndPassword(member.password, credentials.password) then
          Failure(Plain(InvalidCredentialsText))
        else
          match crypto.signedString(LoginClaims(member.id, now), service.secretKey)
          case Failure(e) => Failure(e)
          case Success(token) => Success(token)
  }

  /** With a member found, the attempt fails as an invalid login exactly
      when the password does not match its hash, and otherwise ends with the
      signer's answer for the member's claims. */
  lemma LoginAfterLookup(service: Service, credentials: Models.Credentials, crypto: Crypto, now: Time)
    requires credentials.email != "" && credentials.password != ""
    requires service.memberRepository.getMemberByEmail(credentials.email).Success?
    ensures var member := service.memberRepository.getMemberByEmail(credentials.email).value;
            && (!crypto.compareHashAndPassword(member.password, credentials.password) ==>
                  Login(service, credentials, crypto, now) == Failure(Plain(InvalidCredentialsText)))
            && (crypto.compareHashAndPassword(member.password, credentials.password) ==>
                  Login(service, credentials, crypto, now) ==
                  crypto.signedString(LoginClaims(member.id, now), service.secretKey))
  {
  }

  /** A login missing a field does not depend on the repository: it fails
      before any lookup. */
  lemma LoginRejectsBeforeLookup(service: Service, other: MemberRepository, credentials: Models.Credentials, crypto: Crypto, now: Time)
    requires credentials.email == "" || credentials.password == ""
    ensures Login(service, credentials, crypto, now) ==
            Login(service.(memberRepository := other), credentials, crypto, now)
  {
  }

  predicate MissingRequired(m: Member) {
    m.name == "" || m.email == "" || m.password == ""
  }

  /** Register: required fields, then an existing email, then hashing, then
      the insert.  `stored` is the member handed to the repository's
      CreateMember, None when it is not called. */
  method Register(service: Service, newMember: Ref<Member>, crypto: Crypto)
    returns (err: Option<GoError>, stored: Option<Member>)
    modifies newMember
    ensures MissingRequired(old(newMember.value)) ==>
              err == Some(Plain(FieldsRequiredText)) && stored.None? && newMember.value == old(newMember.value)
    ensures !MissingRequired(old(newMember.value)) &&
            service.memberRepository.getMemberByEmail(old(newMember.value).email).Success? ==>
              err == Some(Plain(EmailExistsText)) && stored.None? && newMember.value == old(newMember.value)
    ensures !MissingRequired(old(newMember.value)) &&
            service.memberRepository.getMemberByEmail(old(newMember.value).email).Failure? &&
            crypto.generateFromPassword(old(newMember.value).password).Failure? ==>
              && err == Some(crypto.generateFromPassword(old(newMember.value).password).error)
              && stored.None? && newMember.value == old(newMember.value)
    ensures stored.Some? ==>
              && !MissingRequired(old(newMember.value))
              && service.memberRepository.getMemberByEmail(old(newMember.value).email).Failure?
              && crypto.generateFromPassword(old(newMember.value).password).Success?
              && newMember.value == old(newMember.value).(password := crypto.generateFromPassword(old(newMember.value).password).value)
              && stored == Some(newMember.value)
              && err == service.memberRepository.createMember(newMember.value)
    ensures !MissingRequired(old(newMember.value)) &&
            service.memberRepository.getMemberByEmail(old(newMember.value).email).Failure? &&
            crypto.generateFromPassword(old(newMember.value).password).Success? ==>
              stored.Some?
    ensures stored.None? ==> newMember.value == old(newMember.value)
  {
    stored := None;
    if newMember.value.name == "" || newMember.value.email == "" || newMember.value.password == "" {
      return Some(Plain(FieldsRequiredText)), stored;
    }
    var existing := service.memberRepository.getMemberByEmail(newMember.value.email);
    if existing.Success? {
      return Some(Plain(EmailExistsText)), stored;
    }
    var hashed := crypto.generateFromPassword(newMember.value.password);
    if hashed.Failure? {
      return Some(hashed.error), stored;
    }
    newMember.value := newMember.value.(password := hashed.value);
    stored := Some(newMember.value);
    err := service.memberRepository.createMember(newMember.value);
  }
}
