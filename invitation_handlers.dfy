/** The decisions of the invitation handlers (`createInvitation`,
    `updateInvitation`), as pure functions of the stored collections and the
    request, with the lemmas that show an accepted request keeps the store in
    order. */
module InvitationHandlers {
  import opened Common
  import opened InvitationModel
  import opened StoreInvariants
  import IR = InvitationRules
  import TM = TemplateModel
  import RM = RsvpModel
  import PM = PaymentModel

  /** The `expiresAt` of an update request: absent, falsy (clear it), or a date. */
  datatype ExpiryInput = KeepExpiry | ClearExpiry | SetExpiry(at: int)

  /** What the scratch-or-template decision of `createInvitation` requires:
      an active template when a template id is given, a design otherwise. */
  predicate CreationAllowed(templates: map<Id, TM.Template>, templateId: Option<Id>, design: Option<Blob>) {
    if templateId.Some? then templateId.value in templates && templates[templateId.value].isActive
    else design.Some?
  }

  /** The status an update leaves: a non-empty request value replaces the old
      one and must name a status; `None` when the save would reject it. */
  function UpdatedStatus(current: Status, requested: Option<string>): (r: Option<Status>)
    ensures requested.None? || requested.value == "" ==> r == Some(current)
    ensures requested.Some? && requested.value != "" ==> r == ParseStatus(requested.value)
  {
    if requested.None? || requested.value == "" then Some(current) else ParseStatus(requested.value)
  }

  /** The slug check of `updateInvitation`: a request equal to the current slug,
      or none at all, keeps it; any other is sanitised and must then be at least
      three characters long and held by no other invitation. */
  function SlugChange(invitations: map<Id, Invitation>, self: Id, current: string, requested: Option<string>): (r: Result<string>)
    ensures requested.None? || requested.value == current ==> r == Ok(current)
    ensures requested.Some? && requested.value != current ==>
              (r.Ok? <==> |IR.SanitizeSlug(requested.value)| >= 3
                          && !SlugTaken(invitations, Some(self), IR.SanitizeSlug(requested.value)))
    ensures requested.Some? && requested.value != current && r.Ok? ==> r.value == IR.SanitizeSlug(requested.value)
    ensures r.Err? ==> r.failure == BadRequest
  {
    if requested.None? || requested.value == current then Ok(current)
    else
      var s := IR.SanitizeSlug(requested.value);
      if |s| < IR.MinSlugLength then Err(BadRequest)
      else if SlugTaken(invitations, Some(self), s) then Err(BadRequest)
      else Ok(s)
  }

  /** The expiry after the field assignment and the pre-save hook: a cleared
      expiry is refilled from the event date. */
  function UpdatedExpiry(current: Option<int>, input: ExpiryInput, eventDate: int): (r: int)
    ensures input.SetExpiry? ==> r == input.at
    ensures input.ClearExpiry? ==> r == eventDate + 2592000000
    ensures input.KeepExpiry? && current.Some? ==> r == current.value
  {
    match input
    case SetExpiry(at) => at
    case ClearExpiry => eventDate + ExpiryGraceMs
    case KeepExpiry => if current.Some? then current.value else eventDate + ExpiryGraceMs
  }

  /** The record `createInvitation` hands to `Invitation.create`, after the
      template-or-design decision and the schema's validation and pre-save
      hook; `scratchPrice` is the configured price of a scratch design. The
      unique slug index is consulted afterwards, by the store. */
  function Created(templates: map<Id, TM.Template>, caller: Id, templateId: Option<Id>, content: Content,
                   customData: Option<Blob>, design: Option<Blob>, scratchPrice: int, uuid: string)
    : (r: Result<Invitation>)
    ensures templateId.Some? && templateId.value !in templates ==> r == Err(NotFound)
    ensures templateId.Some? && templateId.value in templates && !templates[templateId.value].isActive ==>
              r == Err(BadRequest)
    ensures templateId.None? && design.None? ==> r == Err(BadRequest)
    ensures CreationAllowed(templates, templateId, design) && !ContentValid(content) ==> r == Err(Invalid)
    ensures r.Ok? <==> CreationAllowed(templates, templateId, design) && ContentValid(content)
    ensures r.Ok? ==>
              && Saved(r.value)
              && r.value.user == caller && r.value.slug == DefaultSlug(uuid) && r.value.content == content
              && r.value.customData == customData.GetOr(EmptyObject) && r.value.design == design
              && r.value.template == templateId
              && r.value.views == 0 && r.value.rsvpCount == 0 && r.value.payment.None? && r.value.autoDelete
              && r.value.expiresAt == Some(content.eventDate.value + 2592000000)
    ensures r.Ok? && templateId.Some? ==>
              var t := templates[templateId.value];
              && r.value.isPaid == !t.isPremium
              && r.value.price == (if t.isPremium then t.price else 0)
              && r.value.status == (if t.isPremium then Draft else Published)
    ensures r.Ok? && templateId.None? ==>
              !r.value.isPaid && r.value.status == Draft && r.value.price == scratchPrice
  {
    if templateId.Some? && templateId.value !in templates then Err(NotFound)
    else if templateId.Some? && !templates[templateId.value].isActive then Err(BadRequest)
    else if templateId.None? && design.None? then Err(BadRequest)
    else if !ContentValid(content) then Err(Invalid)
    else
      var premium := templateId.Some? && templates[templateId.value].isPremium;
      var price := if templateId.None? then scratchPrice
                   else if premium then templates[templateId.value].price else 0;
      var status := if templateId.Some? && !premium then Published else Draft;
      Ok(WithDefaultExpiry(Fresh(caller, templateId, design, DefaultSlug(uuid), content,
                                 customData.GetOr(EmptyObject), templateId.Some? && !premium, price, status)))
  }

  /** The reply of `createInvitation`: the outcome of `Created`, or 500 with
      the duplicate-key error when another invitation already holds the
      default slug. */
  function CreateReply(invs: map<Id, Invitation>, templates: map<Id, TM.Template>, caller: Id,
                       templateId: Option<Id>, content: Content, customData: Option<Blob>, design: Option<Blob>,
                       scratchPrice: int, uuid: string): (r: Result<Invitation>)
    ensures Created(templates, caller, templateId, content, customData, design, scratchPrice, uuid).Err? ==>
              r == Created(templates, caller, templateId, content, customData, design, scratchPrice, uuid)
    ensures Created(templates, caller, templateId, content, customData, design, scratchPrice, uuid).Ok? ==>
              var inv := Created(templates, caller, templateId, content, customData, design, scratchPrice, uuid).value;
              r == if SlugTaken(invs, None, inv.slug) then Err(Duplicate) else Ok(inv)
  {
    var c := Created(templates, caller, templateId, content, customData, design, scratchPrice, uuid);
    if c.Err? then c
    else if SlugTaken(invs, None, c.value.slug) then Err(Duplicate)
    else c
  }

  /** The document `updateInvitation` saves: the truthy request fields
      overwrite the stored ones, the slug goes through `SlugChange`, the expiry
      fields are applied and the save validates and runs the expiry hook.
      Views, RSVP count, payment, price, owner and template are untouched. */
  function Edited(invitations: map<Id, Invitation>, id: Id, inv: Invitation, content: Option<Content>,
                  status: Option<string>, customData: Option<Blob>, design: Option<Blob>,
                  slug: Option<string>, expiry: ExpiryInput, autoDelete: Option<bool>)
    : (r: Result<Invitation>)
    ensures SlugChange(invitations, id, inv.slug, slug).Err? ==> r == Err(BadRequest)
    ensures SlugChange(invitations, id, inv.slug, slug).Ok? ==>
              (r.Ok? <==> ContentValid(content.GetOr(inv.content)) && UpdatedStatus(inv.status, status).Some?)
    ensures r.Err? ==> r == Err(BadRequest) || r == Err(Invalid)
    ensures r.Ok? ==>
              var c := content.GetOr(inv.content);
              && Saved(r.value)
              && r.value == inv.(content := c, status := UpdatedStatus(inv.status, status).value,
                                 customData := customData.GetOr(inv.customData),
                                 design := if design.Some? then design else inv.design,
                                 slug := SlugChange(invitations, id, inv.slug, slug).value,
                                 expiresAt := Some(UpdatedExpiry(inv.expiresAt, expiry, c.eventDate.value)),
                                 autoDelete := autoDelete.GetOr(inv.autoDelete))
  {
    var sc := SlugChange(invitations, id, inv.slug, slug);
    var c := content.GetOr(inv.content);
    var st := UpdatedStatus(inv.status, status);
    if sc.Err? then Err(BadRequest)
    else if !ContentValid(c) || st.None? then Err(Invalid)
    else
      var written := inv.(content := c, status := st.value,
                           customData := customData.GetOr(inv.customData),
                           design := if design.Some? then design else inv.design,
                           slug := sc.value,
                           expiresAt := if expiry.KeepExpiry? then inv.expiresAt
                                        else if expiry.ClearExpiry? then None
                                        else Some(expiry.at),
                           autoDelete := autoDelete.GetOr(inv.autoDelete));
      Ok(WithDefaultExpiry(written))
  }

  /** Inserting a saved invitation under the next id, with no RSVPs, no
      payment and a slug nobody holds, keeps the store in order. */
  lemma InsertInvitationOk(invs: map<Id, Invitation>, rsvps: seq<RM.Rsvp>, payments: seq<PM.Payment>, ts: map<Id, TM.Template>,
                           cs: map<Id, CM.Category>, us: map<Id, UM.User>, nextId: nat, inv: Invitation)
    requires StoreOk(invs, rsvps, payments, ts, cs, us, nextId)
    requires Saved(inv) && inv.rsvpCount == 0 && inv.payment.None? && !SlugTaken(invs, None, inv.slug)
    ensures StoreOk(invs[nextId := inv], rsvps, payments, ts, cs, us, nextId + 1)
  {
    RM.CountForNone(rsvps, nextId);
    OkGrow(invs, rsvps, payments, ts, cs, us, nextId, nextId + 1);
    InvitationsOkPut(invs, rsvps, payments, nextId + 1, nextId, inv);
  }

  /** The reply of `updateInvitation`: 404 for an unknown id, 403 for
      another user's invitation, otherwise the outcome of `Edited`. */
  function UpdateReply(invs: map<Id, Invitation>, caller: Id, id: Id, content: Option<Content>,
                       status: Option<string>, customData: Option<Blob>, design: Option<Blob>,
                       slug: Option<string>, expiry: ExpiryInput, autoDelete: Option<bool>)
    : (r: Result<Invitation>)
    ensures id !in invs ==> r == Err(NotFound)
    ensures id in invs && invs[id].user != caller ==> r == Err(Forbidden)
    ensures id in invs && invs[id].user == caller ==>
              r == Edited(invs, id, invs[id], content, status, customData, design, slug, expiry, autoDelete)
  {
    if id !in invs then Err(NotFound)
    else if invs[id].user != caller then Err(Forbidden)
    else Edited(invs, id, invs[id], content, status, customData, design, slug, expiry, autoDelete)
  }

  /** An accepted update keeps the invitations in order: the edited record
      keeps its counters and payment link, and its slug is either its own or
      one no other invitation holds. */
  lemma EditedKeepsOk(invs: map<Id, Invitation>, rsvps: seq<RM.Rsvp>, payments: seq<PM.Payment>, nextId: nat, id: Id,
                      content: Option<Content>, status: Option<string>, customData: Option<Blob>,
                      design: Option<Blob>, slug: Option<string>, expiry: ExpiryInput, autoDelete: Option<bool>)
    requires InvitationsOk(invs, rsvps, payments, nextId) && id in invs
    requires Edited(invs, id, invs[id], content, status, customData, design, slug, expiry, autoDelete).Ok?
    ensures InvitationsOk(invs[id := Edited(invs, id, invs[id], content, status, customData, design, slug,
                                            expiry, autoDelete).value], rsvps, payments, nextId)
  {
    var inv := invs[id];
    var e := Edited(invs, id, inv, content, status, customData, design, slug, expiry, autoDelete).value;
    assert InvitationOk(inv, id, rsvps, payments);
    if e.slug == inv.slug {
      assert !SlugTaken(invs, Some(id), e.slug);
    }
    InvitationsOkPut(invs, rsvps, payments, nextId, id, e);
  }
}
