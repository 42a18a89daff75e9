/**
 * `/api/auth/register`: creating a participant or brand user with a
 * normalised, unique e-mail; a brand also gets a minimal company.
 */
module RegisterRoute {
  import opened Wrappers
  import opened Domain
  import opened Store
  import Text

  /** The `company` member of the body; `None` stands for absent or not a string. */
  datatype CompanyInput = CompanyInput(legalName: Option<string>, taxId: Option<string>)

  /**
   * The parsed body: `NotAnObject` for invalid JSON, `null` and primitives;
   * otherwise its members, `None` standing for absent or not a string.
   */
  datatype RegisterBody =
    | NotAnObject
    | RegisterFields(email: Option<string>, password: Option<string>, name: Option<string>,
                     accountType: Option<string>, company: Option<CompanyInput>)

  const InvalidBody := HttpError(400, "Invalid body")
  const MissingCredentials := HttpError(400, "Email y password requeridos")
  const InvalidAccountType := HttpError(400, "Tipo de cuenta inválido")
  const OtherAccountType := HttpError(409, "Este correo ya está registrado con otro tipo de cuenta")
  const UserExists := HttpError(409, "Usuario ya existe")
  /** The tax id of a brand's company when none was given. */
  const PlaceholderTaxId := "TEMP"

  /** `email.trim().toLowerCase()`. */
  function NormalizeEmail(email: string): string {
    Text.ToLowerAscii(Text.Trim(email))
  }

  /** Normalising twice is normalising once, so a stored address is found by its own normal form. */
  lemma NormalizeEmailIdempotent(email: string)
    ensures NormalizeEmail(NormalizeEmail(email)) == NormalizeEmail(email)
  {
    var t := Text.Trim(email);
    var l := Text.ToLowerAscii(t);
    if l != [] {
      Text.LowerCharKeepsWhitespace(t[0]);
      Text.LowerCharKeepsWhitespace(t[|t| - 1]);
    }
    Text.TrimFixesTrimmed(l);
    Text.ToLowerIdempotent(t);
  }

  function ParseAccountType(s: Option<string>): (r: Option<AccountType>)
    ensures r == Some(Participant) <==> s == Some("PARTICIPANT")
    ensures r == Some(Brand) <==> s == Some("BRAND")
  {
    if s == Some("PARTICIPANT") then Some(Participant)
    else if s == Some("BRAND") then Some(Brand)
    else None
  }

  predicate EmailTaken(users: map<Id, User>, email: string) {
    exists id :: id in users && users[id].email == email
  }

  predicate EmailTakenAs(users: map<Id, User>, email: string, t: AccountType) {
    exists id :: id in users && users[id].email == email && users[id].accountType == t
  }

  /** The `409` answer for an address already registered, by whether the account type matches. */
  function Conflict(users: map<Id, User>, email: string, t: AccountType): (r: Option<HttpError>)
    ensures r.None? <==> !EmailTaken(users, email)
    ensures r.Some? ==> r.value.status == 409
    ensures r.Some? ==> (r.value == UserExists <==> EmailTakenAs(users, email, t))
    ensures r.Some? ==> (r.value == OtherAccountType <==> !EmailTakenAs(users, email, t))
  {
    if !EmailTaken(users, email) then None
    else if !EmailTakenAs(users, email, t) then Some(OtherAccountType)
    else Some(UserExists)
  }

  /** After inserting the only user with an address, that address is taken exactly as that user's account type. */
  lemma TakenOnlyAsInserted(users: map<Id, User>, id: Id, u: User, t: AccountType)
    requires !EmailTaken(users, u.email)
    ensures EmailTakenAs(users[id := u], u.email, t) <==> t == u.accountType
  {
    assert users[id := u][id] == u;
  }

  /** A request that passed every check. */
  datatype Registration = Registration(email: string, password: string, name: Option<string>,
                                       accountType: AccountType, company: Option<CompanyInput>)

  /** `typeof email === "string" && typeof password === "string" && email.trim() && password`. */
  predicate CredentialsGiven(body: RegisterBody)
    requires body.RegisterFields?
  {
    body.email.Some? && body.password.Some? && Text.Trim(body.email.value) != [] && body.password.value != ""
  }

  /**
   * The checks of `POST`, in their order: the body, e-mail and password, the
   * account type, then the uniqueness of the normalised e-mail.
   */
  function ValidateRegistration(users: map<Id, User>, body: RegisterBody): (r: Result<Registration, HttpError>)
    ensures body.NotAnObject? ==> r == Failure(InvalidBody)
    ensures body.RegisterFields? && !CredentialsGiven(body) ==> r == Failure(MissingCredentials)
    ensures body.RegisterFields? && CredentialsGiven(body) && ParseAccountType(body.accountType).None?
            ==> r == Failure(InvalidAccountType)
    ensures r.Success? <==>
              && body.RegisterFields? && body.email.Some? && body.password.Some?
              && Text.Trim(body.email.value) != [] && body.password.value != ""
              && ParseAccountType(body.accountType).Some?
              && !EmailTaken(users, NormalizeEmail(body.email.value))
    ensures r.Success? ==>
              r.value == Registration(NormalizeEmail(body.email.value), body.password.value, body.name,
                                      ParseAccountType(body.accountType).value, body.company)
    ensures r.Success? ==> r.value.email != []
    ensures r.Failure? && r.error.status == 409 <==>
              && body.RegisterFields? && body.email.Some? && body.password.Some?
              && Text.Trim(body.email.value) != [] && body.password.value != ""
              && ParseAccountType(body.accountType).Some?
              && EmailTaken(users, NormalizeEmail(body.email.value))
    ensures r.Failure? && r.error.status == 409 ==>
              && body.RegisterFields? && body.email.Some? && ParseAccountType(body.accountType).Some?
              && (r.error == UserExists || r.error == OtherAccountType)
              && (r.error == UserExists
                  <==> EmailTakenAs(users, NormalizeEmail(body.email.value), ParseAccountType(body.accountType).value))
  {
    if body.NotAnObject? then Failure(InvalidBody)
    else if !CredentialsGiven(body) then Failure(MissingCredentials)
    else
      var email := NormalizeEmail(body.email.value);
      var accountType := ParseAccountType(body.accountType);
      if accountType.None? then Failure(InvalidAccountType)
      else if Conflict(users, email, accountType.value).Some? then Failure(Conflict(users, email, accountType.value).value)
      else
        Success(Registration(email, body.password.value, body.name, accountType.value, body.company))
  }

  /** `company?.legalName` is a string that is not blank. */
  predicate LegalNameGiven(company: Option<CompanyInput>) {
    company.Some? && company.value.legalName.Some? && Text.Trim(company.value.legalName.value) != []
  }

  /**
   * The legal name of a brand's company: the trimmed given name, else the
   * user name, else the e-mail's local part. It is empty exactly when no
   * name was given and the address is empty or starts with '@'; a given legal
   * name is stored without surrounding whitespace.
   */
  function CompanyLegalName(company: Option<CompanyInput>, name: Option<string>, email: string): (r: string)
    ensures r == [] <==> !LegalNameGiven(company) && !Truthy(name) && (email == [] || email[0] == '@')
    ensures LegalNameGiven(company) ==>
              && r != [] && Text.Trim(r) == r
              && Text.Trim(company.value.legalName.value) == r
    ensures !LegalNameGiven(company) && Truthy(name) ==> r == name.value
    ensures !LegalNameGiven(company) && !Truthy(name) ==>
              Text.StartsWith(email, r) && '@' !in r && r == Text.BeforeFirstAt(email)
  {
    if LegalNameGiven(company) then
      var t := Text.Trim(company.value.legalName.value);
      Text.TrimFixesTrimmed(t);
      t
    else if Truthy(name) then name.value
    else
      var local := Text.BeforeFirstAt(email);
      assert local != [] ==> local[0] == email[0];
      local
  }

  function CompanyTaxId(company: Option<CompanyInput>): string {
    if company.Some? && company.value.taxId.Some? then company.value.taxId.value else PlaceholderTaxId
  }

  /** The `201` body: the selected columns of the new user. */
  datatype CreatedUser = CreatedUser(id: Id, email: string, accountType: AccountType)

  method Register(store: RecordStore, body: RegisterBody, hashPassword: string -> string,
                  newUserId: Id, newCompanyId: Id) returns (reply: Reply<CreatedUser>)
    requires store.Valid()
    requires newUserId !in store.users && newCompanyId !in store.companies
    modifies store
    ensures store.Valid()
    ensures store.giveaways == old(store.giveaways) && store.requirements == old(store.requirements)
    ensures store.participations == old(store.participations)
    ensures match ValidateRegistration(old(store.users), body)
            case Failure(e) =>
              && reply == Fail(e.status, e.message)
              && store.users == old(store.users) && store.companies == old(store.companies)
            case Success(reg) =>
              && reply == Done(201, CreatedUser(newUserId, reg.email, reg.accountType))
              && store.users == old(store.users)[newUserId := User(newUserId, reg.email, reg.name, hashPassword(reg.password), reg.accountType)]
              && (reg.accountType == Participant ==> store.companies == old(store.companies))
              && (reg.accountType == Brand ==>
                    store.companies == old(store.companies)[newCompanyId :=
                      Company(newCompanyId, CompanyLegalName(reg.company, reg.name, reg.email),
                              CompanyTaxId(reg.company), None, reg.email, newUserId)])
  {
    var checked := ValidateRegistration(store.users, body);
    if checked.Failure? {
      return Fail(checked.error.status, checked.error.message);
    }
    var reg := checked.value;
    var user := User(newUserId, reg.email, reg.name, hashPassword(reg.password), reg.accountType);
    assert !EmailTaken(store.users, reg.email);
    InsertKeepsEmailsUnique(store.users, newUserId, user);
    store.users := store.users[newUserId := user];
    if reg.accountType == Brand {
      var legalName := CompanyLegalName(reg.company, reg.name, reg.email);
      store.companies := store.companies[newCompanyId := Company(newCompanyId, legalName, CompanyTaxId(reg.company), None, reg.email, newUserId)];
    }
    reply := Done(201, CreatedUser(newUserId, reg.email, reg.accountType));
  }

  /**
   * Once an address is registered, registering it again (in any letter case
   * or padding) is refused with a conflict, whichever account type is asked for.
   */
  lemma SecondRegistrationConflicts(users: map<Id, User>, first: RegisterBody, again: RegisterBody,
                                    hashPassword: string -> string, newUserId: Id)
    requires ValidateRegistration(users, first).Success?
    requires again.RegisterFields? && again.email.Some? && again.password.Some? && again.password.value != ""
    requires first.email.Some? && NormalizeEmail(again.email.value) == NormalizeEmail(first.email.value)
    requires ParseAccountType(again.accountType).Some?
    ensures var reg := ValidateRegistration(users, first).value;
            var after := users[newUserId := User(newUserId, reg.email, reg.name, hashPassword(reg.password), reg.accountType)];
            && ValidateRegistration(after, again).Failure?
            && ValidateRegistration(after, again).error
               == (if ParseAccountType(again.accountType).value == reg.accountType then UserExists else OtherAccountType)
  {
    var reg := ValidateRegistration(users, first).value;
    var u := User(newUserId, reg.email, reg.name, hashPassword(reg.password), reg.accountType);
    var after := users[newUserId := u];
    var asked := ParseAccountType(again.accountType).value;
    assert |Text.Trim(again.email.value)| == |NormalizeEmail(again.email.value)| == |reg.email| > 0;
    assert after[newUserId].email == reg.email;
    assert EmailTaken(after, reg.email);
    assert !EmailTaken(users, reg.email);
    TakenOnlyAsInserted(users, newUserId, u, asked);
    assert Conflict(after, reg.email, asked) == Some(if asked == reg.accountType then UserExists else OtherAccountType);
    assert ValidateRegistration(after, again) == Failure(Conflict(after, NormalizeEmail(again.email.value), asked).value);
  }
}
