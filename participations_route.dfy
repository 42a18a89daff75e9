/**
 * `/api/participations`: entering a giveaway (existence, status, time window
 * and duplicate checks, then one insert) and listing the caller's entries.
 */
module ParticipationsRoute {
  import opened Wrappers
  import opened Domain
  import opened Store

  datatype ParticipationPayload = ParticipationPayload(giveawayId: Option<Id>, entries: Option<int>)

  const NotFound := HttpError(404, "Giveaway not found")
  const NotActive := HttpError(400, "Giveaway is not active")
  const OutsideWindow := HttpError(400, "Giveaway is not within participation period")
  const AlreadyEntered := HttpError(400, "You already participated in this giveaway")
  /** `req.json()` threw, or the lookup was given no id; the text is the thrower's. */
  const MalformedBody := HttpError(500, "Invalid JSON body")

  /** The instant `now` lies in the closed interval [startsAt, endsAt]. */
  predicate WithinWindow(g: Giveaway, now: int) {
    g.startsAt <= now <= g.endsAt
  }

  /**
   * The checks of `POST`, in their order, then the store's refusal of an
   * `entries` outside its `Int` column; on success the participation to
   * insert: pending, not a winner, `entries` defaulting to one.
   */
  function ValidateEntry(giveaways: map<Id, Giveaway>, participations: map<Id, Participation>,
                         caller: Option<Id>, body: Option<ParticipationPayload>, now: int, newId: Id)
    : (r: Result<Participation, HttpError>)
    ensures caller.None? ==> r == Failure(Unauthorized)
    ensures caller.Some? && (body.None? || body.value.giveawayId.None?) ==> r == Failure(MalformedBody)
    ensures caller.Some? && body.Some? && body.value.giveawayId.Some? ==>
              var gid := body.value.giveawayId.value;
              && (gid !in giveaways ==> r == Failure(NotFound))
              && (gid in giveaways && giveaways[gid].status != Active ==> r == Failure(NotActive))
              && (gid in giveaways && giveaways[gid].status == Active && !WithinWindow(giveaways[gid], now)
                  ==> r == Failure(OutsideWindow))
              && (gid in giveaways && giveaways[gid].status == Active && WithinWindow(giveaways[gid], now)
                  && HasEntry(participations, gid, caller.value)
                  ==> r == Failure(AlreadyEntered))
              && (gid in giveaways && giveaways[gid].status == Active && WithinWindow(giveaways[gid], now)
                  && !HasEntry(participations, gid, caller.value) && !FitsIntColumn(body.value.entries.GetOr(1))
                  ==> r == Failure(StoreRejected))
    ensures r.Success? <==>
              && caller.Some? && body.Some? && body.value.giveawayId.Some?
              && body.value.giveawayId.value in giveaways
              && giveaways[body.value.giveawayId.value].status == Active
              && WithinWindow(giveaways[body.value.giveawayId.value], now)
              && !HasEntry(participations, body.value.giveawayId.value, caller.value)
              && FitsIntColumn(body.value.entries.GetOr(1))
    ensures r.Success? ==>
              && r.value == Participation(newId, body.value.giveawayId.value, caller.value,
                                          body.value.entries.GetOr(1), Pending, false)
  {
    if caller.None? then Failure(Unauthorized)
    else if body.None? || body.value.giveawayId.None? then Failure(MalformedBody)
    else
      var gid := body.value.giveawayId.value;
      if gid !in giveaways then Failure(NotFound)
      else if giveaways[gid].status != Active then Failure(NotActive)
      else if !WithinWindow(giveaways[gid], now) then Failure(OutsideWindow)
      else if HasEntry(participations, gid, caller.value) then Failure(AlreadyEntered)
      else if !FitsIntColumn(body.value.entries.GetOr(1)) then Failure(StoreRejected)
      else Success(Participation(newId, gid, caller.value, body.value.entries.GetOr(1), Pending, false))
  }

  method PostParticipation(store: RecordStore, caller: Option<Id>, body: Option<ParticipationPayload>,
                           now: int, newId: Id) returns (reply: Reply<Participation>)
    requires store.Valid()
    requires newId !in store.participations
    modifies store
    ensures store.Valid()
    ensures store.users == old(store.users) && store.companies == old(store.companies)
    ensures store.giveaways == old(store.giveaways) && store.requirements == old(store.requirements)
    ensures match ValidateEntry(old(store.giveaways), old(store.participations), caller, body, now, newId)
            case Failure(e) => reply == Fail(e.status, e.message) && store.participations == old(store.participations)
            case Success(p) => reply == Done(201, p) && store.participations == old(store.participations)[newId := p]
  {
    var checked := ValidateEntry(store.giveaways, store.participations, caller, body, now, newId);
    if checked.Failure? {
      return Fail(checked.error.status, checked.error.message);
    }
    var p := checked.value;
    InsertKeepsEntriesUnique(store.participations, newId, p);
    store.participations := store.participations[newId := p];
    reply := Done(201, p);
  }

  /** A second entry of the same user in the same giveaway is refused, whatever its payload. */
  lemma SecondEntryRejected(giveaways: map<Id, Giveaway>, participations: map<Id, Participation>,
                            caller: Id, first: ParticipationPayload, again: ParticipationPayload,
                            now: int, later: int, firstId: Id, secondId: Id)
    requires ValidateEntry(giveaways, participations, Some(caller), Some(first), now, firstId).Success?
    requires again.giveawayId == first.giveawayId
    ensures var p := ValidateEntry(giveaways, participations, Some(caller), Some(first), now, firstId).value;
            && ValidateEntry(giveaways, participations[firstId := p], Some(caller), Some(again), later, secondId).Failure?
            && (WithinWindow(giveaways[p.giveawayId], later)
                ==> ValidateEntry(giveaways, participations[firstId := p], Some(caller), Some(again), later, secondId)
                    == Failure(AlreadyEntered))
  {
    var p := ValidateEntry(giveaways, participations, Some(caller), Some(first), now, firstId).value;
    assert participations[firstId := p][firstId] == p;
    assert HasEntry(participations[firstId := p], p.giveawayId, caller);
  }

  /** One element of the `GET` listing: the entry and a summary of its giveaway. */
  datatype GiveawaySummary = GiveawaySummary(id: Id, title: string, endsAt: int, status: GiveawayStatus)
  datatype EntryView = EntryView(participation: Participation, giveaway: GiveawaySummary)

  function Summary(g: Giveaway): GiveawaySummary {
    GiveawaySummary(g.id, g.title, g.endsAt, g.status)
  }

  /** `GET`: exactly the caller's participations, each with its giveaway. */
  function ListEntries(giveaways: map<Id, Giveaway>, participations: map<Id, Participation>, caller: Option<Id>)
    : (r: Result<map<Id, EntryView>, HttpError>)
    requires forall id :: id in participations ==> participations[id].giveawayId in giveaways
    ensures caller.None? <==> r == Failure(Unauthorized)
    ensures r.Success? ==> forall id :: id in r.value <==> id in participations && participations[id].userId == caller.value
    ensures r.Success? ==> forall id :: id in r.value ==>
              r.value[id] == EntryView(participations[id], Summary(giveaways[participations[id].giveawayId]))
  {
    if caller.None? then Failure(Unauthorized)
    else Success(map id | id in participations && participations[id].userId == caller.value
                   :: EntryView(participations[id], Summary(giveaways[participations[id].giveawayId])))
  }

  /** A successful entry shows up in its author's listing and in nobody else's. */
  lemma EntryListedForAuthorOnly(giveaways: map<Id, Giveaway>, participations: map<Id, Participation>,
                                 caller: Id, body: ParticipationPayload, now: int, newId: Id, viewer: Id)
    requires forall id :: id in participations ==> participations[id].giveawayId in giveaways
    requires ValidateEntry(giveaways, participations, Some(caller), Some(body), now, newId).Success?
    ensures var p := ValidateEntry(giveaways, participations, Some(caller), Some(body), now, newId).value;
            var after := ListEntries(giveaways, participations[newId := p], Some(viewer)).value;
            (newId in after <==> viewer == caller)
  {
  }
}
