/** The decisions of the template administration handlers as pure functions
    of the stored templates and invitations and the request, with the lemmas
    that show an accepted request keeps every template in the stored shape.
    Absent text fields of a request are the empty string. */
module TemplateHandlers {
  import opened Common
  import opened Text
  import opened InvitationModel
  import opened StoreInvariants
  import TM = TemplateModel
  import CM = CategoryModel
  import RM = RsvpModel
  import UM = UserModel
  import PM = PaymentModel
  import PQ = PublicQueries

  const DefaultComponentName: string := "BlockBasedTemplate"

  /** The document `Template.create` builds: the trimmed name, `isPremium`
      defaulting to false, the price `isPremium ? price : 0` with an absent
      price taking the default 0, and the schema defaults for the rest (the
      demo event dated thirty days after `now`). */
  function NewTemplate(name: string, category: Id, previewImage: string, isPremium: Option<bool>,
                       price: Option<int>, config: Option<Blob>, componentName: Option<string>, now: int)
    : (t: TM.Template)
    ensures t.name == Trim(name) && t.category == category && t.previewImage == previewImage
    ensures t.isPremium == (isPremium == Some(true))
    ensures t.price == (if isPremium == Some(true) then price.GetOr(0) else 0)
    ensures t.isActive && t.usageCount == 0 && t.description == ""
    ensures t.componentName == componentName.GetOr(DefaultComponentName)
    ensures t.config == config.GetOr(EmptyObject)
    ensures t.design == TM.DefaultDesign && t.defaultContent == TM.DemoContent(now)
  {
    var premium := isPremium == Some(true);
    TM.Template(Trim(name), "", category, previewImage, [], premium, if premium then price.GetOr(0) else 0, true,
                TM.DefaultDesign, [], TM.DemoContent(now), componentName.GetOr(DefaultComponentName),
                config.GetOr(EmptyObject), 0)
  }

  /** The reply of `createTemplate`: the validation error unless the category
      is given and the new document passes the save check; the category is not
      looked up. */
  function CreateTemplateReply(name: string, category: Option<Id>, previewImage: string, isPremium: Option<bool>,
                               price: Option<int>, config: Option<Blob>, componentName: Option<string>, now: int)
    : (r: Result<TM.Template>)
    ensures r.Err? ==> r == Err(Invalid)
    ensures r.Ok? <==> category.Some? && Trim(name) != "" && previewImage != ""
                       && (isPremium == Some(true) ==> price.Some? && price.value > 0)
    ensures r.Ok? ==> r.value == NewTemplate(name, category.value, previewImage, isPremium, price, config,
                                             componentName, now)
    ensures r.Ok? ==> TM.Stored(r.value)
  {
    if category.None? then Err(Invalid)
    else
      var t := NewTemplate(name, category.value, previewImage, isPremium, price, config, componentName, now);
      if TM.ValidOnSave(t, Some(t.price)) then Ok(t) else Err(Invalid)
  }

  /** A stored template passes the save check exactly when it is free or
      priced above 0. A load fills a price the database does not hold with its
      default 0, and a save validates defaulted paths too, so a premium template
      whose price an update left unset fails every later save. */
  lemma StoredPassesSave(t: TM.Template)
    requires TM.Stored(t)
    ensures TM.ValidOnSave(t, Some(t.price)) <==> !t.isPremium || t.price > 0
  {
  }

  /** The document `updateTemplate` saves: truthy request fields replace the
      stored ones, `isPremium` and `isActive` when given, and the price is
      derived from the request's `isPremium` alone. */
  function EditedTemplate(t: TM.Template, name: string, category: Option<Id>, previewImage: string,
                          isPremium: Option<bool>, price: Option<int>, config: Option<Blob>, componentName: string,
                          isActive: Option<bool>): (e: TM.Template)
    ensures e.name == (if name != "" then Trim(name) else t.name)
    ensures e.category == category.GetOr(t.category)
    ensures e.previewImage == (if previewImage != "" then previewImage else t.previewImage)
    ensures e.isPremium == isPremium.GetOr(t.isPremium) && e.isActive == isActive.GetOr(t.isActive)
    ensures e.price == TM.UpdatedPrice(isPremium, price).GetOr(0)
    ensures e.config == config.GetOr(t.config)
    ensures e.componentName == (if componentName != "" then componentName else t.componentName)
    ensures e.(name := t.name, category := t.category, previewImage := t.previewImage, isPremium := t.isPremium,
               price := t.price, config := t.config, componentName := t.componentName, isActive := t.isActive) == t
  {
    t.(name := if name != "" then Trim(name) else t.name, category := category.GetOr(t.category),
       previewImage := if previewImage != "" then previewImage else t.previewImage,
       isPremium := isPremium.GetOr(t.isPremium), price := TM.UpdatedPrice(isPremium, price).GetOr(0),
       config := config.GetOr(t.config),
       componentName := if componentName != "" then componentName else t.componentName,
       isActive := isActive.GetOr(t.isActive))
  }

  /** The reply of `updateTemplate`: 404 for an unknown id, the validation
      error when the edited document fails the save check. */
  function UpdateTemplateReply(ts: map<Id, TM.Template>, id: Id, name: string, category: Option<Id>,
                               previewImage: string, isPremium: Option<bool>, price: Option<int>,
                               config: Option<Blob>, componentName: string, isActive: Option<bool>)
    : (r: Result<TM.Template>)
    ensures id !in ts ==> r == Err(NotFound)
    ensures id in ts ==>
              var e := EditedTemplate(ts[id], name, category, previewImage, isPremium, price, config, componentName,
                                      isActive);
              && (r.Ok? <==> TM.ValidOnSave(e, TM.UpdatedPrice(isPremium, price)))
              && (r.Ok? ==> r.value == e)
              && (r.Err? ==> r == Err(Invalid))
  {
    if id !in ts then Err(NotFound)
    else
      var e := EditedTemplate(ts[id], name, category, previewImage, isPremium, price, config, componentName,
                              isActive);
      if TM.ValidOnSave(e, TM.UpdatedPrice(isPremium, price)) then Ok(e) else Err(Invalid)
  }

  /** An accepted update leaves the template in the stored shape. A template
      that stays premium while the request omits `isPremium` is always
      refused, since its price is then cleared. */
  lemma UpdatedTemplateStored(ts: map<Id, TM.Template>, id: Id, name: string, category: Option<Id>,
                              previewImage: string, isPremium: Option<bool>, price: Option<int>,
                              config: Option<Blob>, componentName: string, isActive: Option<bool>)
    requires id in ts && TM.Stored(ts[id])
    requires UpdateTemplateReply(ts, id, name, category, previewImage, isPremium, price, config, componentName,
                                 isActive).Ok?
    ensures TM.Stored(UpdateTemplateReply(ts, id, name, category, previewImage, isPremium, price, config,
                                          componentName, isActive).value)
    ensures isPremium.Some? || !ts[id].isPremium
  {
    var e := EditedTemplate(ts[id], name, category, previewImage, isPremium, price, config, componentName, isActive);
    TM.UpdatedPriceStored(e.isPremium, isPremium, price);
  }

  /** `getTemplateById`. */
  function TemplateReply(ts: map<Id, TM.Template>, id: Id): (r: Result<TM.Template>)
    ensures id !in ts ==> r == Err(NotFound)
    ensures id in ts ==> r == Ok(ts[id])
  {
    if id !in ts then Err(NotFound) else Ok(ts[id])
  }

  /** `deleteTemplate`: refused while a paid invitation uses the template;
      unpaid ones do not count. */
  function DeleteTemplateReply(ts: map<Id, TM.Template>, invs: map<Id, Invitation>, id: Id): (r: Result<()>)
    ensures id !in ts ==> r == Err(NotFound)
    ensures id in ts ==> (r.Ok? <==> forall i :: i in invs ==> !(invs[i].template == Some(id) && invs[i].isPaid))
    ensures r.Err? ==> r == Err(NotFound) || r == Err(BadRequest)
  {
    if id !in ts then Err(NotFound)
    else if |PQ.PaidUsing(invs, id)| > 0 then Err(BadRequest)
    else Ok(())
  }

  /** `activateTemplate` and `deactivateTemplate`: the flag is set and the
      document saved, which the price validator refuses for a premium template
      reading back 0. */
  function ToggleReply(ts: map<Id, TM.Template>, id: Id, active: bool): (r: Result<TM.Template>)
    ensures id !in ts ==> r == Err(NotFound)
    ensures id in ts && TM.Stored(ts[id]) ==> (r.Ok? <==> !ts[id].isPremium || ts[id].price > 0)
    ensures id in ts && r.Err? ==> r == Err(Invalid)
    ensures r.Ok? ==> r.value == ts[id].(isActive := active) && TM.ValidOnSave(r.value, Some(r.value.price))
  {
    if id !in ts then Err(NotFound)
    else
      var t := ts[id].(isActive := active);
      if TM.ValidOnSave(t, Some(t.price)) then Ok(t) else Err(Invalid)
  }

  /** A premium template updated with `isPremium` but no price is accepted,
      its price left unset; after that neither activating nor deactivating it
      can be saved. */
  lemma PriceClearedBlocksToggle(ts: map<Id, TM.Template>, id: Id, active: bool)
    requires id in ts && TM.Stored(ts[id]) && ts[id].isPremium
    ensures var r := UpdateTemplateReply(ts, id, "", None, "", Some(true), None, None, "", None);
            && r.Ok? && r.value.isPremium && r.value.price == 0
            && ToggleReply(ts[id := r.value], id, active) == Err(Invalid)
  {
  }

  /** Writing a stored-shape template under an issued id keeps the templates
      in order. */
  lemma PutTemplateOk(ts: map<Id, TM.Template>, nextId: nat, id: Id, t: TM.Template)
    requires TemplatesOk(ts, nextId) && id < nextId && TM.Stored(t)
    ensures TemplatesOk(ts[id := t], nextId)
  {
  }

  /** A created template goes in under the next id and keeps the store in order. */
  lemma InsertTemplateOk(invs: map<Id, Invitation>, rsvps: seq<RM.Rsvp>, payments: seq<PM.Payment>,
                         ts: map<Id, TM.Template>, cs: map<Id, CM.Category>, us: map<Id, UM.User>, nextId: nat,
                         t: TM.Template)
    requires StoreOk(invs, rsvps, payments, ts, cs, us, nextId)
    requires TM.Stored(t)
    ensures nextId !in ts
    ensures StoreOk(invs, rsvps, payments, ts[nextId := t], cs, us, nextId + 1)
  {
    OkGrow(invs, rsvps, payments, ts, cs, us, nextId, nextId + 1);
  }
}
