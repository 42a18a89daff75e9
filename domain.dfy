/**
 * The records of the giveaway platform's relational store, as the route
 * handlers and the verifier read and write them.
 */
module Domain {
  import opened Wrappers

  type Id = string

  datatype RequirementType = Follow | Like | Comment | Mentions

  datatype GiveawayStatus = Draft | Active | AwaitingWinner | Finished

  datatype VerificationStatus = Pending | Approved | Rejected

  datatype AccountType = Participant | Brand

  /** The enum value names as stored and as clients send them. */
  function RequirementTypeName(t: RequirementType): string {
    match t
    case Follow => "follow"
    case Like => "like"
    case Comment => "comment"
    case Mentions => "mentions"
  }

  /** Membership of a client string in the requirement-type enum. */
  function ParseRequirementType(s: string): (r: Option<RequirementType>)
    ensures r.Some? ==> RequirementTypeName(r.value) == s
    ensures r.None? ==> forall t :: RequirementTypeName(t) != s
  {
    if s == "follow" then Some(Follow)
    else if s == "like" then Some(Like)
    else if s == "comment" then Some(Comment)
    else if s == "mentions" then Some(Mentions)
    else None
  }

  datatype Requirement = Requirement(
    rtype: RequirementType,
    required: bool,
    mentionsCount: Option<int>,
    profileToFollow: Option<string>,
    order: int)

  datatype Giveaway = Giveaway(
    id: Id,
    title: string,
    description: string,
    network: string,
    postUrl: string,
    companyId: Id,
    startsAt: int,
    endsAt: int,
    basesUrl: Option<string>,
    imageUrl: Option<string>,
    status: GiveawayStatus)

  datatype Participation = Participation(
    id: Id,
    giveawayId: Id,
    userId: Id,
    entries: int,
    verificationStatus: VerificationStatus,
    isWinner: bool)

  datatype Company = Company(
    id: Id,
    legalName: string,
    taxId: string,
    fiscalAddress: Option<string>,
    contactEmail: string,
    ownerUserId: Id)

  datatype User = User(
    id: Id,
    email: string,
    name: Option<string>,
    passwordHash: string,
    accountType: AccountType)

  /** A linked social identity of a user or of a company. */
  datatype SocialAccount = SocialAccount(
    userId: Option<Id>,
    companyId: Option<Id>,
    network: string,
    providerUserId: Option<string>,
    accessToken: Option<string>,
    pageId: Option<string>,
    instagramBusinessId: Option<string>)

  /** An HTTP error answer of a route handler: its status code and its `error` text. */
  datatype HttpError = HttpError(status: nat, message: string)

  /** What a route handler answers: a created or listed value, or an error. */
  datatype Reply<T> = Done(status: nat, body: T) | Fail(status: nat, message: string)

  const Unauthorized := HttpError(401, "Unauthorized")

  /** The values of the store's `SocialNetwork` enum. */
  predicate KnownNetwork(n: string) {
    n == "instagram" || n == "x" || n == "tiktok" || n == "facebook"
  }

  /** A value the store accepts in an `Int` column: a 32-bit signed integer. */
  predicate FitsIntColumn(n: int) {
    -0x8000_0000 <= n < 0x8000_0000
  }

  /**
   * The store refused to write a row (a value outside an enum or outside an
   * `Int` column); the handlers' `catch` turns the exception into a 500 whose
   * text is the store's.
   */
  const StoreRejected := HttpError(500, "Invalid value for a column of the row")
}
