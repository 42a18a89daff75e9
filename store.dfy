/**
 * The relational store the route handlers read and write, as tables keyed
 * by row id. Ids of new rows are chosen by the store (they are parameters of
 * the handlers, required to be unused).
 */
module Store {
  import opened Domain

  /** At most one participation per (giveaway, user) pair. */
  predicate UniqueEntries(participations: map<Id, Participation>) {
    forall a, b ::
      (a in participations && b in participations
       && participations[a].giveawayId == participations[b].giveawayId
       && participations[a].userId == participations[b].userId) ==> a == b
  }

  /** At most one user per e-mail address. */
  predicate UniqueEmails(users: map<Id, User>) {
    forall a, b :: a in users && b in users && users[a].email == users[b].email ==> a == b
  }

  /** Every giveaway ends after it starts. */
  predicate WindowsOrdered(giveaways: map<Id, Giveaway>) {
    forall id :: id in giveaways ==> giveaways[id].startsAt < giveaways[id].endsAt
  }

  /** Some participation of `userId` in `giveawayId` exists (`findFirst({ where: { giveawayId, userId } })`). */
  predicate HasEntry(participations: map<Id, Participation>, giveawayId: Id, userId: Id) {
    exists id :: id in participations && participations[id].giveawayId == giveawayId && participations[id].userId == userId
  }

  /** Inserting an entry for a pair that has none keeps the pairs unique. */
  lemma InsertKeepsEntriesUnique(participations: map<Id, Participation>, id: Id, p: Participation)
    requires UniqueEntries(participations)
    requires id !in participations
    requires !HasEntry(participations, p.giveawayId, p.userId)
    ensures UniqueEntries(participations[id := p])
  {
  }

  /** Inserting a user whose address is not yet taken keeps addresses unique. */
  lemma InsertKeepsEmailsUnique(users: map<Id, User>, id: Id, u: User)
    requires UniqueEmails(users)
    requires id !in users
    requires forall other :: other in users ==> users[other].email != u.email
    ensures UniqueEmails(users[id := u])
  {
  }

  class RecordStore {
    var users: map<Id, User>
    var companies: map<Id, Company>
    var giveaways: map<Id, Giveaway>
    /** The requirement rows of each giveaway, in creation order. */
    var requirements: map<Id, seq<Requirement>>
    var participations: map<Id, Participation>

    ghost predicate Valid()
      reads this
    {
      && UniqueEntries(participations)
      && UniqueEmails(users)
      && WindowsOrdered(giveaways)
      && requirements.Keys <= giveaways.Keys
      && (forall id :: id in giveaways ==> giveaways[id].companyId in companies)
      && (forall id :: id in participations ==> participations[id].giveawayId in giveaways)
    }

    constructor Empty()
      ensures Valid()
      ensures users == map[] && companies == map[] && giveaways == map[]
      ensures requirements == map[] && participations == map[]
    {
      users, companies, giveaways := map[], map[], map[];
      requirements, participations := map[], map[];
    }
  }
}
