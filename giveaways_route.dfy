/**
 * `/api/giveaways`: creating a giveaway (a fixed-order validation chain, then
 * one insert of the giveaway with its normalised requirements) and listing
 * giveaways through optional filters.
 */
module GiveawaysRoute {
  import opened Wrappers
  import opened Domain
  import opened Store

  /** A date as a JSON client sends it. */
  datatype DateInput = DateText(text: string) | DateNumber(ms: int)

  /** JavaScript truthiness of an optional date field. */
  predicate DateTruthy(d: Option<DateInput>) {
    d.Some? && match d.value
               case DateText(t) => t != ""
               case DateNumber(n) => n != 0
  }

  datatype RequirementInput = RequirementInput(
    typeName: Option<string>,
    required: Option<bool>,
    mentionsCount: Option<int>,
    profileToFollow: Option<string>)

  datatype GiveawayPayload = GiveawayPayload(
    title: Option<string>,
    description: Option<string>,
    network: Option<string>,
    postUrl: Option<string>,
    companyId: Option<Id>,
    startsAt: Option<DateInput>,
    endsAt: Option<DateInput>,
    basesUrl: Option<string>,
    imageUrl: Option<string>,
    requirements: Option<seq<RequirementInput>>)

  const MissingFields := HttpError(400, "Missing required fields: title, network, postUrl, companyId, startsAt, endsAt")
  const InvalidDate := HttpError(400, "Invalid date format")
  const EndsBeforeStart := HttpError(400, "endsAt must be after startsAt")
  const NotOwner := HttpError(403, "Forbidden: you do not own this company")
  /** `req.json()` threw; the text is the JSON parser's. */
  const MalformedBody := HttpError(500, "Invalid JSON body")

  predicate FieldsPresent(b: GiveawayPayload) {
    Truthy(b.title) && Truthy(b.network) && Truthy(b.postUrl) && Truthy(b.companyId)
    && DateTruthy(b.startsAt) && DateTruthy(b.endsAt)
  }

  /** One element of `requirements.map((r, idx) => …)`. */
  function NormalizeRequirement(r: RequirementInput, idx: nat): Requirement {
    var t := if r.typeName.Some? then ParseRequirementType(r.typeName.value) else None;
    Requirement(t.GetOr(Follow), r.required.GetOr(true), r.mentionsCount, r.profileToFollow, idx)
  }

  /**
   * The stored requirements: an unknown type becomes `follow`, `required`
   * defaults to true, `order` is the input position, the rest passes through.
   */
  function NormalizeRequirements(rs: seq<RequirementInput>): (out: seq<Requirement>)
    ensures |out| == |rs|
    ensures forall i :: 0 <= i < |rs| ==>
              && out[i].order == i
              && out[i].required == rs[i].required.GetOr(true)
              && out[i].mentionsCount == rs[i].mentionsCount
              && out[i].profileToFollow == rs[i].profileToFollow
              && ((rs[i].typeName.Some? && ParseRequirementType(rs[i].typeName.value).Some?)
                    ==> RequirementTypeName(out[i].rtype) == rs[i].typeName.value)
              && (rs[i].typeName.None? || ParseRequirementType(rs[i].typeName.value).None? ==> out[i].rtype == Follow)
  {
    seq(|rs|, i requires 0 <= i < |rs| => NormalizeRequirement(rs[i], i))
  }

  /** A stored requirement as a client would send it back. */
  function AsInput(r: Requirement): RequirementInput {
    RequirementInput(Some(RequirementTypeName(r.rtype)), Some(r.required), r.mentionsCount, r.profileToFollow)
  }

  /** Normalisation is a projection: stored requirements sent back unchanged are stored identically. */
  lemma NormalizeStoredIsIdentity(stored: seq<Requirement>)
    requires forall i :: 0 <= i < |stored| ==> stored[i].order == i
    ensures NormalizeRequirements(seq(|stored|, i requires 0 <= i < |stored| => AsInput(stored[i]))) == stored
  {
    var inputs := seq(|stored|, i requires 0 <= i < |stored| => AsInput(stored[i]));
    var out := NormalizeRequirements(inputs);
    forall i | 0 <= i < |stored|
      ensures out[i] == stored[i]
    {
      var t := stored[i].rtype;
      assert ParseRequirementType(RequirementTypeName(t)) == Some(t) by {
        match t
        case Follow =>
        case Like =>
        case Comment =>
        case Mentions =>
      }
    }
  }

  /** Every given `mentionsCount` fits the store's `Int` column. */
  predicate MentionCountsFit(rs: seq<RequirementInput>) {
    forall i :: 0 <= i < |rs| && rs[i].mentionsCount.Some? ==> FitsIntColumn(rs[i].mentionsCount.value)
  }

  /** The row `prisma.giveaway.create` would write: a draft with the parsed dates. */
  function GiveawayRow(b: GiveawayPayload, starts: int, ends: int, newId: Id): Giveaway
    requires FieldsPresent(b)
  {
    Giveaway(newId, b.title.value, b.description.GetOr(""), b.network.value, b.postUrl.value,
             b.companyId.value, starts, ends, b.basesUrl, b.imageUrl, Draft)
  }

  /**
   * The checks of `POST`, in their order: authentication, the body, the
   * required fields, the dates, ownership of the company, then the store's
   * own refusal of an unknown network or an out-of-range `mentionsCount`; on
   * success the giveaway to insert.
   */
  function ValidateGiveaway(companies: map<Id, Company>, caller: Option<Id>, body: Option<GiveawayPayload>,
                            parseDate: DateInput -> Option<int>, newId: Id): (r: Result<Giveaway, HttpError>)
    ensures caller.None? ==> r == Failure(Unauthorized)
    ensures caller.Some? && body.None? ==> r == Failure(MalformedBody)
    ensures caller.Some? && body.Some? && !FieldsPresent(body.value) ==> r == Failure(MissingFields)
    ensures caller.Some? && body.Some? && FieldsPresent(body.value) ==>
              var b := body.value;
              var starts := parseDate(b.startsAt.value);
              var ends := parseDate(b.endsAt.value);
              && (starts.None? || ends.None? ==> r == Failure(InvalidDate))
              && (starts.Some? && ends.Some? && ends.value <= starts.value ==> r == Failure(EndsBeforeStart))
              && (starts.Some? && ends.Some? && starts.value < ends.value
                  && (b.companyId.value !in companies || companies[b.companyId.value].ownerUserId != caller.value)
                  ==> r == Failure(NotOwner))
              && (starts.Some? && ends.Some? && starts.value < ends.value
                  && b.companyId.value in companies && companies[b.companyId.value].ownerUserId == caller.value
                  && !(KnownNetwork(b.network.value) && MentionCountsFit(b.requirements.GetOr([])))
                  ==> r == Failure(StoreRejected))
    ensures r.Success? <==>
              && caller.Some? && body.Some? && FieldsPresent(body.value)
              && parseDate(body.value.startsAt.value).Some? && parseDate(body.value.endsAt.value).Some?
              && parseDate(body.value.startsAt.value).value < parseDate(body.value.endsAt.value).value
              && body.value.companyId.value in companies
              && companies[body.value.companyId.value].ownerUserId == caller.value
              && KnownNetwork(body.value.network.value) && MentionCountsFit(body.value.requirements.GetOr([]))
    ensures r.Success? ==>
              && r.value == GiveawayRow(body.value, parseDate(body.value.startsAt.value).value,
                                        parseDate(body.value.endsAt.value).value, newId)
              && r.value.startsAt < r.value.endsAt
              && r.value.companyId in companies && companies[r.value.companyId].ownerUserId == caller.value
              && KnownNetwork(r.value.network)
  {
    if caller.None? then Failure(Unauthorized)
    else if body.None? then Failure(MalformedBody)
    else
      var b := body.value;
      if !FieldsPresent(b) then Failure(MissingFields)
      else
        var starts := parseDate(b.startsAt.value);
        var ends := parseDate(b.endsAt.value);
        if starts.None? || ends.None? then Failure(InvalidDate)
        else if ends.value <= starts.value then Failure(EndsBeforeStart)
        else if b.companyId.value !in companies || companies[b.companyId.value].ownerUserId != caller.value then Failure(NotOwner)
        else if !KnownNetwork(b.network.value) || !MentionCountsFit(b.requirements.GetOr([])) then Failure(StoreRejected)
        else Success(GiveawayRow(b, starts.value, ends.value, newId))
  }

  /** The `201` body: the created giveaway with its requirement rows. */
  datatype CreatedGiveaway = CreatedGiveaway(giveaway: Giveaway, requirements: seq<Requirement>)

  method PostGiveaway(store: RecordStore, caller: Option<Id>, body: Option<GiveawayPayload>,
                      parseDate: DateInput -> Option<int>, newId: Id) returns (reply: Reply<CreatedGiveaway>)
    requires store.Valid()
    requires newId !in store.giveaways
    modifies store
    ensures store.Valid()
    ensures store.users == old(store.users) && store.companies == old(store.companies)
    ensures store.participations == old(store.participations)
    ensures match ValidateGiveaway(old(store.companies), caller, body, parseDate, newId)
            case Failure(e) =>
              && reply == Fail(e.status, e.message)
              && store.giveaways == old(store.giveaways) && store.requirements == old(store.requirements)
            case Success(g) =>
              var rows := NormalizeRequirements(body.value.requirements.GetOr([]));
              && reply == Done(201, CreatedGiveaway(g, rows))
              && store.giveaways == old(store.giveaways)[newId := g]
              && store.requirements == old(store.requirements)[newId := rows]
  {
    var checked := ValidateGiveaway(store.companies, caller, body, parseDate, newId);
    if checked.Failure? {
      return Fail(checked.error.status, checked.error.message);
    }
    var giveaway := checked.value;
    var rows := NormalizeRequirements(body.value.requirements.GetOr([]));
    store.giveaways := store.giveaways[newId := giveaway];
    store.requirements := store.requirements[newId := rows];
    reply := Done(201, CreatedGiveaway(giveaway, rows));
  }

  // ---------------------------------------------------------------------
  // GET: filters, newest first, at most 50
  // ---------------------------------------------------------------------

  const ListLimit: nat := 50

  datatype Filters = Filters(status: Option<string>, companyId: Option<Id>, network: Option<string>)

  function StatusName(s: GiveawayStatus): string {
    match s
    case Draft => "draft"
    case Active => "active"
    case AwaitingWinner => "awaiting_winner"
    case Finished => "finished"
  }

  /** A filter key is set exactly when its query parameter is present and non-empty. */
  function BuildFilters(status: Option<string>, companyId: Option<string>, network: Option<string>): (f: Filters)
    ensures f.status.Some? <==> Truthy(status)
    ensures f.companyId.Some? <==> Truthy(companyId)
    ensures f.network.Some? <==> Truthy(network)
    ensures f.status.Some? ==> f.status == status
    ensures f.companyId.Some? ==> f.companyId == companyId
    ensures f.network.Some? ==> f.network == network
  {
    Filters(if Truthy(status) then status else None,
            if Truthy(companyId) then companyId else None,
            if Truthy(network) then network else None)
  }

  predicate Matches(g: Giveaway, f: Filters) {
    (f.status.None? || StatusName(g.status) == f.status.value)
    && (f.companyId.None? || g.companyId == f.companyId.value)
    && (f.network.None? || g.network == f.network.value)
  }

  /** The giveaways of `table` that match, in the table's order. */
  function Filtered(table: seq<Giveaway>, f: Filters): (r: seq<Giveaway>)
    ensures |r| <= |table|
    ensures forall g :: g in r <==> g in table && Matches(g, f)
  {
    if table == [] then []
    else
      var rest := Filtered(table[1..], f);
      assert forall g :: g in table <==> g == table[0] || g in table[1..];
      if Matches(table[0], f) then [table[0]] + rest else rest
  }

  /**
   * Filtering keeps the table's order: filtering a concatenation is the
   * concatenation of the filtered parts, so a giveaway listed before another
   * in the table is listed before it in the result.
   */
  lemma {:induction false} FilteredAppend(a: seq<Giveaway>, b: seq<Giveaway>, f: Filters)
    ensures Filtered(a + b, f) == Filtered(a, f) + Filtered(b, f)
    decreases |a|
  {
    if a == [] {
      assert a + b == b;
    } else {
      assert (a + b)[1..] == a[1..] + b;
      FilteredAppend(a[1..], b, f);
    }
  }

  /** Filtering keeps every matching row as often as the table holds it, and no other. */
  lemma {:induction false} FilteredMultiplicity(table: seq<Giveaway>, f: Filters, g: Giveaway)
    ensures multiset(Filtered(table, f))[g] == if Matches(g, f) then multiset(table)[g] else 0
    decreases |table|
  {
    if table != [] {
      FilteredMultiplicity(table[1..], f, g);
      assert table == [table[0]] + table[1..];
    }
  }

  /**
   * `findMany({ where, orderBy: { createdAt: "desc" }, take: 50 })` over the
   * table listed newest first.
   */
  function ListGiveaways(newestFirst: seq<Giveaway>, f: Filters): (r: seq<Giveaway>)
    ensures |r| <= ListLimit
    ensures forall g :: g in r ==> g in newestFirst && Matches(g, f)
    ensures |r| < ListLimit ==> forall g :: g in newestFirst && Matches(g, f) ==> g in r
    ensures |r| <= |Filtered(newestFirst, f)| && r == Filtered(newestFirst, f)[..|r|]
  {
    var all := Filtered(newestFirst, f);
    if |all| <= ListLimit then all else all[..ListLimit]
  }
}
