/** The invariants the schemas, the unique indexes and the handlers keep
    true of the whole store, and the small steps that preserve them. */
module StoreInvariants {
  import opened Common
  import opened InvitationModel
  import TM = TemplateModel
  import CM = CategoryModel
  import RM = RsvpModel
  import UM = UserModel
  import PM = PaymentModel

  /** Every stored invitation was saved with valid content and carries an
      expiry; its RSVP counter equals the number of RSVPs that name it; its
      payment link points at a recorded payment of that same invitation;
      slugs are unique. */
  ghost predicate InvitationsOk(invs: map<Id, Invitation>, rsvps: seq<RM.Rsvp>, payments: seq<PM.Payment>, nextId: nat) {
    && (forall id :: id in invs ==> id < nextId && InvitationOk(invs[id], id, rsvps, payments))
    && UniqueSlugs(invs)
  }

  ghost predicate InvitationOk(inv: Invitation, id: Id, rsvps: seq<RM.Rsvp>, payments: seq<PM.Payment>) {
    && Saved(inv)
    && inv.rsvpCount == RM.CountFor(rsvps, id)
    && (inv.payment.Some? ==> inv.payment.value < |payments| && payments[inv.payment.value].invitation == id)
  }

  /** Every RSVP names an id already issued and satisfies the schema; each
      (invitation, email) pair appears once. */
  ghost predicate RsvpsOk(rsvps: seq<RM.Rsvp>, nextId: nat) {
    && (forall i :: 0 <= i < |rsvps| ==> rsvps[i].invitation < nextId && RM.Stored(rsvps[i]))
    && RM.UniquePairs(rsvps)
  }

  ghost predicate TemplatesOk(ts: map<Id, TM.Template>, nextId: nat) {
    forall id :: id in ts ==> id < nextId && TM.Stored(ts[id])
  }

  ghost predicate CategoriesOk(cs: map<Id, CM.Category>, nextId: nat) {
    && (forall id :: id in cs ==> id < nextId && CM.Stored(cs[id]))
    && CM.UniqueNamesAndSlugs(cs)
  }

  /** Every user holds one of the two roles the handlers ever assign. */
  ghost predicate UsersOk(us: map<Id, UM.User>, nextId: nat) {
    forall id :: id in us ==> id < nextId && UM.IsRole(us[id].role)
  }

  /** Everything the schemas, indexes and handlers keep true of the store. */
  ghost predicate StoreOk(invs: map<Id, Invitation>, rsvps: seq<RM.Rsvp>, payments: seq<PM.Payment>, ts: map<Id, TM.Template>,
                          cs: map<Id, CM.Category>, us: map<Id, UM.User>, nextId: nat) {
    && InvitationsOk(invs, rsvps, payments, nextId)
    && RsvpsOk(rsvps, nextId)
    && TemplatesOk(ts, nextId)
    && CategoriesOk(cs, nextId)
    && UsersOk(us, nextId)
  }

  /** Issuing a fresh id keeps every collection in order. */
  lemma OkGrow(invs: map<Id, Invitation>, rsvps: seq<RM.Rsvp>, payments: seq<PM.Payment>, ts: map<Id, TM.Template>,
               cs: map<Id, CM.Category>, us: map<Id, UM.User>, n: nat, n': nat)
    requires n <= n'
    requires InvitationsOk(invs, rsvps, payments, n) && RsvpsOk(rsvps, n)
    requires TemplatesOk(ts, n) && CategoriesOk(cs, n) && UsersOk(us, n)
    ensures InvitationsOk(invs, rsvps, payments, n') && RsvpsOk(rsvps, n')
    ensures TemplatesOk(ts, n') && CategoriesOk(cs, n') && UsersOk(us, n')
  {
  }

  /** Writing an invitation that is itself in order and whose slug no other
      invitation holds keeps the invitations in order. */
  lemma InvitationsOkPut(invs: map<Id, Invitation>, rsvps: seq<RM.Rsvp>, payments: seq<PM.Payment>, nextId: nat,
                         id: Id, inv: Invitation)
    requires InvitationsOk(invs, rsvps, payments, nextId)
    requires id < nextId && InvitationOk(inv, id, rsvps, payments)
    requires !SlugTaken(invs, Some(id), inv.slug)
    ensures InvitationsOk(invs[id := inv], rsvps, payments, nextId)
  {
    PutKeepsUniqueSlugs(invs, id, inv);
  }

  lemma InvitationsOkRemove(invs: map<Id, Invitation>, rsvps: seq<RM.Rsvp>, payments: seq<PM.Payment>, nextId: nat, id: Id)
    requires InvitationsOk(invs, rsvps, payments, nextId)
    ensures InvitationsOk(invs - {id}, rsvps, payments, nextId)
  {
    var m := invs - {id};
    assert forall a :: a in m ==> a in invs && m[a] == invs[a];
  }
}
