/** The decisions of the RSVP handlers (`submitRSVP`, `getRSVPsByInvitation`,
    `exportRSVPsCSV`) as pure functions of the stored collections and the
    request, with the lemmas that show an accepted submission keeps the store
    in order and that a guest answering twice is answered once. */
module RsvpHandlers {
  import opened Common
  import opened Text
  import opened InvitationModel
  import opened StoreInvariants
  import RM = RsvpModel
  import PM = PaymentModel
  import RX = RsvpExport
  import TM = TemplateModel
  import CM = CategoryModel
  import UM = UserModel

  /** Whether `submitRSVP` rewrote the record at position `at` or inserted a new one. */
  datatype RsvpOutcome = RsvpUpdated(at: nat, rsvp: RM.Rsvp) | RsvpCreated(rsvp: RM.Rsvp)

  /** The CSV download: its file name and its body. */
  datatype CsvDownload = CsvDownload(fileName: string, body: string)

  /** What the save validation asks of the fields both paths write: a name
      that is not blank, `response || 'attending'` naming a response, and
      `numberOfGuests || 1` at least one. */
  predicate Answerable(name: string, response: string, guests: Option<int>) {
    Trim(name) != "" && RM.ResolveResponse(response).Some? && RM.ResolveGuests(guests) >= 1
  }

  /** The `trim` setter of the optional phone. */
  function TrimmedPhone(phone: Option<string>): (r: Option<string>)
    ensures r.Some? <==> phone.Some?
    ensures r.Some? ==> Trimmed(r.value)
  {
    if phone.Some? then Some(Trim(phone.value)) else None
  }

  /** The fields a submission writes over a record, after the setters. */
  function Answered(base: RM.Rsvp, name: string, phone: Option<string>, response: string, guests: Option<int>,
                    message: Option<string>): (r: RM.Rsvp)
    requires RM.ResolveResponse(response).Some?
    ensures r.invitation == base.invitation && r.email == base.email && r.createdAt == base.createdAt
    ensures r.name == Trim(name) && r.phone == TrimmedPhone(phone) && r.message == message
    ensures r.response == RM.ResolveResponse(response).value && r.guests == RM.ResolveGuests(guests)
  {
    base.(name := Trim(name), phone := TrimmedPhone(phone), response := RM.ResolveResponse(response).value,
          guests := RM.ResolveGuests(guests), message := message)
  }

  /** A new record of the pair, created at `now`, before any field is written;
      the schema defaults stand for the rest. */
  function Blank(invitation: Id, email: string, now: string): RM.Rsvp {
    RM.Rsvp(invitation, "", email, None, RM.Attending, 1, None, now)
  }

  /** The invitation `submitRSVP` answers to: given, stored and paid. */
  predicate Open(invs: map<Id, Invitation>, invitationId: Option<Id>) {
    invitationId.Some? && invitationId.value in invs && invs[invitationId.value].isPaid
  }

  /** The reply of `submitRSVP`. An unknown or unpaid invitation is 404. The
      record of the (invitation, email) pair, with the email normalised as the
      query casts it, is rewritten if there is one; otherwise a new record is
      created, and then the email must not be blank either. Either save fails
      validation unless the fields are `Answerable`. */
  function SubmitReply(invs: map<Id, Invitation>, rsvps: seq<RM.Rsvp>, invitationId: Option<Id>, name: string,
                       email: string, phone: Option<string>, response: string, guests: Option<int>,
                       message: Option<string>, now: string): (r: Result<RsvpOutcome>)
    ensures !Open(invs, invitationId) ==> r == Err(NotFound)
    ensures r.Err? ==> r == Err(NotFound) || r == Err(Invalid)
    ensures Open(invs, invitationId) ==>
              var e := RM.NormalizeEmail(email);
              var found := RM.Find(rsvps, invitationId.value, e);
              && (r.Ok? <==> Answerable(name, response, guests) && (found.Some? || e != ""))
              && (r.Ok? ==> (r.value.RsvpUpdated? <==> found.Some?))
    ensures r.Ok? && r.value.RsvpUpdated? ==>
              && r.value.at < |rsvps|
              && RM.Find(rsvps, invitationId.value, RM.NormalizeEmail(email)) == Some(r.value.at)
              && r.value.rsvp == Answered(rsvps[r.value.at], name, phone, response, guests, message)
    ensures r.Ok? && r.value.RsvpCreated? ==>
              r.value.rsvp == Answered(Blank(invitationId.value, RM.NormalizeEmail(email), now),
                                       name, phone, response, guests, message)
  {
    if !Open(invs, invitationId) then Err(NotFound)
    else
      var id := invitationId.value;
      var e := RM.NormalizeEmail(email);
      var n := Trim(name);
      var answer := RM.ResolveResponse(response);
      var g := RM.ResolveGuests(guests);
      match RM.Find(rsvps, id, e)
      case Some(k) =>
        if n == "" || answer.None? || g < 1 then Err(Invalid)
        else Ok(RsvpUpdated(k, Answered(rsvps[k], name, phone, response, guests, message)))
      case None =>
        if n == "" || e == "" || answer.None? || g < 1 then Err(Invalid)
        else Ok(RsvpCreated(Answered(Blank(id, e, now), name, phone, response, guests, message)))
  }

  /** The `$inc` of `rsvpCount` that follows a creation; no hook runs. */
  function Counted(invs: map<Id, Invitation>, id: Id): (r: map<Id, Invitation>)
    requires id in invs
    ensures r.Keys == invs.Keys
    ensures r[id] == invs[id].(rsvpCount := invs[id].rsvpCount + 1)
    ensures forall a :: a in invs && a != id ==> r[a] == invs[a]
  {
    invs[id := invs[id].(rsvpCount := invs[id].rsvpCount + 1)]
  }

  /** An accepted submission writes a record the schema accepts. */
  lemma SubmittedStored(invs: map<Id, Invitation>, rsvps: seq<RM.Rsvp>, nextId: nat, invitationId: Option<Id>,
                        name: string, email: string, phone: Option<string>, response: string,
                        guests: Option<int>, message: Option<string>, now: string)
    requires RsvpsOk(rsvps, nextId)
    requires SubmitReply(invs, rsvps, invitationId, name, email, phone, response, guests, message, now).Ok?
    ensures RM.Stored(SubmitReply(invs, rsvps, invitationId, name, email, phone, response, guests, message, now)
                        .value.rsvp)
  {
    var o := SubmitReply(invs, rsvps, invitationId, name, email, phone, response, guests, message, now).value;
    RM.NormalizedFixedPoints(email);
    if o.RsvpUpdated? {
      assert RM.Stored(rsvps[o.at]);
    }
  }

  /** Rewriting a record for the same pair keeps every counter right and the
      pairs unique. */
  lemma ReplaceKeepsOk(invs: map<Id, Invitation>, rsvps: seq<RM.Rsvp>, payments: seq<PM.Payment>, nextId: nat,
                       k: nat, r: RM.Rsvp)
    requires InvitationsOk(invs, rsvps, payments, nextId) && RsvpsOk(rsvps, nextId)
    requires k < |rsvps| && rsvps[k].invitation == r.invitation && rsvps[k].email == r.email && RM.Stored(r)
    ensures InvitationsOk(invs, rsvps[k := r], payments, nextId) && RsvpsOk(rsvps[k := r], nextId)
  {
    forall a | a in invs
      ensures RM.CountFor(rsvps[k := r], a) == RM.CountFor(rsvps, a)
    {
      RM.CountForReplace(rsvps, k, r, a);
    }
    RM.ReplaceKeepsUnique(rsvps, k, r);
  }

  /** Appending a record for a new pair and raising its invitation's counter
      keeps every counter right and the pairs unique. */
  lemma AppendKeepsOk(invs: map<Id, Invitation>, rsvps: seq<RM.Rsvp>, payments: seq<PM.Payment>, nextId: nat, r: RM.Rsvp)
    requires InvitationsOk(invs, rsvps, payments, nextId) && RsvpsOk(rsvps, nextId)
    requires r.invitation in invs && RM.Stored(r) && RM.Find(rsvps, r.invitation, r.email).None?
    ensures InvitationsOk(Counted(invs, r.invitation), rsvps + [r], payments, nextId)
    ensures RsvpsOk(rsvps + [r], nextId)
  {
    CountersAfterAppend(invs, rsvps, payments, nextId, r);
    RsvpsAfterAppend(rsvps, nextId, r);
  }

  lemma CountersAfterAppend(invs: map<Id, Invitation>, rsvps: seq<RM.Rsvp>, payments: seq<PM.Payment>, nextId: nat,
                            r: RM.Rsvp)
    requires InvitationsOk(invs, rsvps, payments, nextId) && r.invitation in invs
    ensures InvitationsOk(Counted(invs, r.invitation), rsvps + [r], payments, nextId)
  {
    var invs' := Counted(invs, r.invitation);
    forall a | a in invs'
      ensures a < nextId && InvitationOk(invs'[a], a, rsvps + [r], payments)
    {
      RM.CountForAppend(rsvps, r, a);
      assert InvitationOk(invs[a], a, rsvps, payments);
    }
    assert !SlugTaken(invs, Some(r.invitation), invs'[r.invitation].slug);
    PutKeepsUniqueSlugs(invs, r.invitation, invs'[r.invitation]);
  }

  lemma RsvpsAfterAppend(rsvps: seq<RM.Rsvp>, nextId: nat, r: RM.Rsvp)
    requires RsvpsOk(rsvps, nextId)
    requires r.invitation < nextId && RM.Stored(r) && RM.Find(rsvps, r.invitation, r.email).None?
    ensures RsvpsOk(rsvps + [r], nextId)
  {
    RM.AppendKeepsUnique(rsvps, r);
    var rs := rsvps + [r];
    forall i | 0 <= i < |rs|
      ensures rs[i].invitation < nextId && RM.Stored(rs[i])
    {
      if i < |rsvps| {
        assert rs[i] == rsvps[i];
      }
    }
  }

  /** An accepted submission keeps the store in order: an update rewrites its
      record in place, a creation appends one and raises its invitation's
      counter, so every counter still equals the number of RSVPs naming it. */
  lemma SubmitKeepsOk(invs: map<Id, Invitation>, rsvps: seq<RM.Rsvp>, payments: seq<PM.Payment>, ts: map<Id, TM.Template>,
                      cs: map<Id, CM.Category>, us: map<Id, UM.User>, nextId: nat, invitationId: Option<Id>,
                      name: string, email: string, phone: Option<string>, response: string,
                      guests: Option<int>, message: Option<string>, now: string, o: RsvpOutcome)
    requires StoreOk(invs, rsvps, payments, ts, cs, us, nextId)
    requires SubmitReply(invs, rsvps, invitationId, name, email, phone, response, guests, message, now) == Ok(o)
    ensures o.RsvpUpdated? ==> o.at < |rsvps| && StoreOk(invs, rsvps[o.at := o.rsvp], payments, ts, cs, us, nextId)
    ensures o.RsvpCreated? ==>
              o.rsvp.invitation in invs
              && StoreOk(Counted(invs, o.rsvp.invitation), rsvps + [o.rsvp], payments, ts, cs, us, nextId)
  {
    SubmittedStored(invs, rsvps, nextId, invitationId, name, email, phone, response, guests, message, now);
    if o.RsvpUpdated? {
      ReplaceKeepsOk(invs, rsvps, payments, nextId, o.at, o.rsvp);
    } else {
      AppendKeepsOk(invs, rsvps, payments, nextId, o.rsvp);
    }
  }

  /** A guest who sends the same answer again, once it has been recorded, is
      answered by rewriting that record with what it already holds: neither
      the RSVPs nor the counter change. */
  lemma ResubmitChangesNothing(invs: map<Id, Invitation>, rsvps: seq<RM.Rsvp>, invitationId: Option<Id>,
                               name: string, email: string, phone: Option<string>, response: string,
                               guests: Option<int>, message: Option<string>, now: string, later: string)
    requires SubmitReply(invs, rsvps, invitationId, name, email, phone, response, guests, message, now).Ok?
    requires SubmitReply(invs, rsvps, invitationId, name, email, phone, response, guests, message, now).value.RsvpCreated?
    ensures var r := SubmitReply(invs, rsvps, invitationId, name, email, phone, response, guests, message, now).value.rsvp;
            SubmitReply(Counted(invs, r.invitation), rsvps + [r], invitationId, name, email, phone, response, guests,
                        message, later) == Ok(RsvpUpdated(|rsvps|, r))
  {
    var r := SubmitReply(invs, rsvps, invitationId, name, email, phone, response, guests, message, now).value.rsvp;
    RM.FindAppended(rsvps, r);
  }

  /** The reply of `getRSVPsByInvitation`: the owner's RSVPs, newest first:
      the i-th listed is the RSVP at the invitation's i-th position from the end. */
  function ListReply(invs: map<Id, Invitation>, rsvps: seq<RM.Rsvp>, caller: Id, id: Id): (r: Result<seq<RM.Rsvp>>)
    ensures id !in invs ==> r == Err(NotFound)
    ensures id in invs && invs[id].user != caller ==> r == Err(Forbidden)
    ensures r.Ok? <==> id in invs && invs[id].user == caller
    ensures r.Ok? ==> forall x :: x in r.value <==> x in rsvps && x.invitation == id
    ensures r.Ok? ==> |r.value| == |RM.PositionsFor(rsvps, id)|
    ensures r.Ok? ==> var ks := RM.PositionsFor(rsvps, id);
                      forall i :: 0 <= i < |r.value| ==> r.value[i] == rsvps[ks[|ks| - 1 - i]]
  {
    if id !in invs then Err(NotFound)
    else if invs[id].user != caller then Err(Forbidden)
    else
      RM.NewestFirstOrder(rsvps, id);
      Ok(RM.NewestFirstFor(rsvps, id))
  }

  /** In a store in order, the list holds exactly as many RSVPs as the
      invitation's counter says. */
  lemma ListMatchesCounter(invs: map<Id, Invitation>, rsvps: seq<RM.Rsvp>, payments: seq<PM.Payment>, nextId: nat,
                           caller: Id, id: Id)
    requires InvitationsOk(invs, rsvps, payments, nextId)
    requires ListReply(invs, rsvps, caller, id).Ok?
    ensures |ListReply(invs, rsvps, caller, id).value| == invs[id].rsvpCount
  {
    assert InvitationOk(invs[id], id, rsvps, payments);
  }

  /** The reply of `exportRSVPsCSV`: the same checks and the same list, as a
      CSV document named after the invitation's slug. */
  function ExportReply(invs: map<Id, Invitation>, rsvps: seq<RM.Rsvp>, caller: Id, id: Id): (r: Result<CsvDownload>)
    ensures ListReply(invs, rsvps, caller, id).Err? ==> r == Err(ListReply(invs, rsvps, caller, id).failure)
    ensures r.Ok? ==> ListReply(invs, rsvps, caller, id).Ok?
                      && r.value.body == RX.Csv(ListReply(invs, rsvps, caller, id).value)
                      && StartsWith(r.value.body, RX.Header)
                      && r.value.fileName == "rsvps-" + invs[id].slug + ".csv"
  {
    match ListReply(invs, rsvps, caller, id)
    case Err(f) => Err(f)
    case Ok(listed) => Ok(CsvDownload("rsvps-" + invs[id].slug + ".csv", RX.Csv(listed)))
  }
}
