/**
 * `/api/companies`: creating a company owned by the caller, and listing the
 * caller's companies with the number of giveaways of each.
 */
module CompaniesRoute {
  import opened Wrappers
  import opened Domain
  import opened Store

  datatype CompanyPayload = CompanyPayload(
    legalName: Option<string>,
    taxId: Option<string>,
    fiscalAddress: Option<string>,
    contactEmail: Option<string>)

  const MissingFields := HttpError(400, "Missing required fields: legalName, taxId, contactEmail")
  /** `req.json()` threw; the text is the JSON parser's. */
  const MalformedBody := HttpError(500, "Invalid JSON body")

  /**
   * The checks of `POST`: authentication, the body, then the three required
   * fields; on success the company to insert, owned by the caller.
   */
  function ValidateCompany(caller: Option<Id>, body: Option<CompanyPayload>, newId: Id): (r: Result<Company, HttpError>)
    ensures caller.None? ==> r == Failure(Unauthorized)
    ensures r.Success? <==>
              caller.Some? && body.Some?
              && Truthy(body.value.legalName) && Truthy(body.value.taxId) && Truthy(body.value.contactEmail)
    ensures caller.Some? && body.Some? && !r.Success? ==> r == Failure(MissingFields)
    ensures r.Success? ==>
              r.value == Company(newId, body.value.legalName.value, body.value.taxId.value,
                                 body.value.fiscalAddress, body.value.contactEmail.value, caller.value)
  {
    if caller.None? then Failure(Unauthorized)
    else if body.None? then Failure(MalformedBody)
    else
      var b := body.value;
      if !Truthy(b.legalName) || !Truthy(b.taxId) || !Truthy(b.contactEmail) then Failure(MissingFields)
      else Success(Company(newId, b.legalName.value, b.taxId.value, b.fiscalAddress, b.contactEmail.value, caller.value))
  }

  method PostCompany(store: RecordStore, caller: Option<Id>, body: Option<CompanyPayload>, newId: Id)
    returns (reply: Reply<Company>)
    requires store.Valid()
    requires newId !in store.companies
    modifies store
    ensures store.Valid()
    ensures store.users == old(store.users) && store.giveaways == old(store.giveaways)
    ensures store.requirements == old(store.requirements) && store.participations == old(store.participations)
    ensures match ValidateCompany(caller, body, newId)
            case Failure(e) => reply == Fail(e.status, e.message) && store.companies == old(store.companies)
            case Success(c) => reply == Done(201, c) && store.companies == old(store.companies)[newId := c]
  {
    var checked := ValidateCompany(caller, body, newId);
    if checked.Failure? {
      return Fail(checked.error.status, checked.error.message);
    }
    store.companies := store.companies[newId := checked.value];
    reply := Done(201, checked.value);
  }

  /** One element of the `GET` listing. */
  datatype OwnedCompany = OwnedCompany(company: Company, giveawayCount: nat)

  /** `_count.giveaways`: the giveaways that belong to the company. */
  function GiveawayCount(giveaways: map<Id, Giveaway>, companyId: Id): nat {
    |set id | id in giveaways && giveaways[id].companyId == companyId|
  }

  /** `GET`: exactly the caller's companies, each with its giveaway count. */
  function ListCompanies(companies: map<Id, Company>, giveaways: map<Id, Giveaway>, caller: Option<Id>)
    : (r: Result<map<Id, OwnedCompany>, HttpError>)
    ensures caller.None? <==> r == Failure(Unauthorized)
    ensures r.Success? ==> forall id :: id in r.value <==> id in companies && companies[id].ownerUserId == caller.value
    ensures r.Success? ==> forall id :: id in r.value ==>
              r.value[id] == OwnedCompany(companies[id], GiveawayCount(giveaways, id))
  {
    if caller.None? then Failure(Unauthorized)
    else Success(map id | id in companies && companies[id].ownerUserId == caller.value
                   :: OwnedCompany(companies[id], GiveawayCount(giveaways, id)))
  }

  /**
   * After a successful `POST`, the creator's listing gains exactly the new
   * company, with no giveaways yet; every other user's listing is unchanged.
   */
  lemma CreatedCompanyListedForOwner(companies: map<Id, Company>, giveaways: map<Id, Giveaway>,
                                     caller: Id, body: CompanyPayload, newId: Id, viewer: Id)
    requires newId !in companies
    requires forall id :: id in giveaways ==> giveaways[id].companyId in companies
    requires ValidateCompany(Some(caller), Some(body), newId).Success?
    ensures var c := ValidateCompany(Some(caller), Some(body), newId).value;
            var before := ListCompanies(companies, giveaways, Some(viewer)).value;
            var after := ListCompanies(companies[newId := c], giveaways, Some(viewer)).value;
            && (viewer == caller ==> after == before[newId := OwnedCompany(c, 0)])
            && (viewer != caller ==> after == before)
  {
    var c := ValidateCompany(Some(caller), Some(body), newId).value;
    assert (set id | id in giveaways && giveaways[id].companyId == newId) == {};
    var before := ListCompanies(companies, giveaways, Some(viewer)).value;
    var after := ListCompanies(companies[newId := c], giveaways, Some(viewer)).value;
    if viewer == caller {
      assert after.Keys == before.Keys + {newId};
    } else {
      assert after.Keys == before.Keys;
    }
  }
}
