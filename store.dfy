/** The backend as one in-memory store: every collection the handlers read
    and write, and one method per request handler. A handler either answers
    `Ok` with what the response carries, or fails with the status it sets
    (or with the persistence error that escapes it); a failed handler leaves
    the collections as they were unless its contract says otherwise. */
module Backend {
  import opened Common
  import opened Text
  import opened InvitationModel
  import IR = InvitationRules
  import TM = TemplateModel
  import CM = CategoryModel
  import RM = RsvpModel
  import RX = RsvpExport
  import PM = PaymentModel
  import SM = SettingsModel
  import UM = UserModel
  import PQ = PublicQueries
  import AM = AuthMiddleware
  import opened StoreInvariants
  import IH = InvitationHandlers
  import RH = RsvpHandlers
  import PH = PaymentHandlers
  import CH = CategoryHandlers
  import TH = TemplateHandlers
  import UH = UserHandlers

  class Store {
    var invitations: map<Id, Invitation>
    var templates: map<Id, TM.Template>
    var categories: map<Id, CM.Category>
    var users: map<Id, UM.User>
    /** RSVPs and payments in creation order; a payment's id is its position. */
    var rsvps: seq<RM.Rsvp>
    var payments: seq<PM.Payment>
    var settings: Option<SM.Settings>
    /** The next fresh document id; every id in use is below it. */
    var nextId: nat

    /** What the schemas, indexes and handlers keep true of the store. */
    ghost predicate Valid()
      reads this`invitations, this`rsvps, this`payments, this`templates, this`categories, this`users, this`nextId
    {
      StoreOk(invitations, rsvps, payments, templates, categories, users, nextId)
    }

    constructor ()
      ensures Valid()
      ensures invitations == map[] && templates == map[] && categories == map[] && users == map[]
      ensures rsvps == [] && payments == [] && settings.None? && nextId == 0
    {
      invitations := map[];
      templates := map[];
      categories := map[];
      users := map[];
      rsvps := [];
      payments := [];
      settings := None;
      nextId := 0;
    }

    // ----- settings -----

    /** `SystemSettings.getSettings`: the stored record, or a new one at 99. */
    method GetSettings() returns (s: SM.Settings)
      modifies this`settings
      ensures s == SM.Ensured(old(settings))
      ensures settings == Some(s)
      ensures old(settings).Some? ==> settings == old(settings)
    {
      if settings.None? {
        settings := Some(SM.Settings(SM.DefaultScratchPrice));
      }
      s := settings.value;
    }

    /** `updateSettings`: create the record if needed, then replace the price
      only when one is supplied. */
    method UpdateSettings(price: Option<int>) returns (s: SM.Settings)
      modifies this`settings
      ensures s == SM.Updated(old(settings), price)
      ensures settings == Some(s)
      ensures price.None? ==> s == SM.Ensured(old(settings))
    {
      if settings.None? {
        settings := Some(SM.Settings(SM.DefaultScratchPrice));
      }
      if price.Some? {
        settings := Some(settings.value.(scratchDesignPrice := price.value));
      }
      s := settings.value;
    }

    // ----- invitations -----

    /** `createInvitation`: the scratch branch reads (and may create) the
      settings record; the new invitation takes the next id unless its default
      slug is already held, which the unique index refuses. */
    method CreateInvitation(caller: Id, templateId: Option<Id>, content: Content,
                            customData: Option<Blob>, design: Option<Blob>, uuid: string)
      returns (r: Result<Id>)
      requires Valid()
      modifies this`invitations, this`nextId, this`settings
      ensures Valid()
      ensures settings == if templateId.None? && design.Some? then Some(SM.Ensured(old(settings))) else old(settings)
      ensures var reply := IH.CreateReply(old(invitations), templates, caller, templateId, content, customData, design,
                                       SM.Ensured(old(settings)).scratchDesignPrice, uuid);
              && (reply.Err? ==> r == Err(reply.failure) && invitations == old(invitations) && nextId == old(nextId))
              && (reply.Ok? ==> r == Ok(old(nextId)) && old(nextId) !in old(invitations)
                                && invitations == old(invitations)[old(nextId) := reply.value]
                                && nextId == old(nextId) + 1)
    {
      // Only the scratch branch calls `getSettings`, which stores the record
      // it falls back on.
      var scratch := templateId.None? && design.Some?;
      var current := SM.Ensured(settings);
      var reply := IH.CreateReply(invitations, templates, caller, templateId, content, customData, design,
                               current.scratchDesignPrice, uuid);
      var settings' := if scratch then Some(current) else settings;
      if reply.Err? {
        r := Err(reply.failure);
        settings := settings';
      } else {
        IH.InsertInvitationOk(invitations, rsvps, payments, templates, categories, users, nextId, reply.value);
        r := Ok(nextId);
        invitations, nextId, settings := invitations[nextId := reply.value], nextId + 1, settings';
        assert StoreOk(invitations, rsvps, payments, templates, categories, users, nextId);
      }
    }

    /** `getMyInvitations`: the ids of the caller's invitations. */
    method GetMyInvitations(caller: Id) returns (ids: set<Id>)
      ensures forall id :: id in ids <==> id in invitations && invitations[id].user == caller
    {
      ids := set id | id in invitations && invitations[id].user == caller;
    }

    /** `getInvitationById`: only the owner may read it. */
    method GetInvitationById(caller: Id, id: Id) returns (r: Result<Invitation>)
      ensures id !in invitations ==> r == Err(NotFound)
      ensures id in invitations && invitations[id].user != caller ==> r == Err(Forbidden)
      ensures r.Ok? <==> id in invitations && invitations[id].user == caller
      ensures r.Ok? ==> r.value == invitations[id]
    {
      if id !in invitations {
        return Err(NotFound);
      }
      if invitations[id].user != caller {
        return Err(Forbidden);
      }
      r := Ok(invitations[id]);
    }

    /** `updateInvitation`: the owner's partial update, saved as `Edited` says. */
    method UpdateInvitation(caller: Id, id: Id, content: Option<Content>, status: Option<string>,
                            customData: Option<Blob>, design: Option<Blob>, slug: Option<string>,
                            expiry: IH.ExpiryInput, autoDelete: Option<bool>)
      returns (r: Result<Invitation>)
      requires Valid()
      modifies this`invitations
      ensures Valid()
      ensures r == IH.UpdateReply(old(invitations), caller, id, content, status, customData, design, slug, expiry, autoDelete)
      ensures invitations == if r.Ok? then old(invitations)[id := r.value] else old(invitations)
    {
      r := IH.UpdateReply(invitations, caller, id, content, status, customData, design, slug, expiry, autoDelete);
      if r.Ok? {
        IH.EditedKeepsOk(invitations, rsvps, payments, nextId, id, content, status, customData, design, slug,
                      expiry, autoDelete);
        invitations := invitations[id := r.value];
        assert StoreOk(invitations, rsvps, payments, templates, categories, users, nextId);
      }
    }

    /** `deleteInvitation`: the owner may delete unless it is paid and published. */
    method DeleteInvitation(caller: Id, id: Id) returns (r: Result<()>)
      requires Valid()
      modifies this`invitations
      ensures Valid()
      ensures id !in old(invitations) ==> r == Err(NotFound)
      ensures id in old(invitations) && old(invitations)[id].user != caller ==> r == Err(Forbidden)
      ensures id in old(invitations) && old(invitations)[id].user == caller ==>
                (r.Ok? <==> IR.DeleteAllowed(old(invitations)[id]))
                && (r.Err? ==> r == Err(BadRequest))
      ensures r.Ok? ==> invitations == old(invitations) - {id}
      ensures r.Err? ==> invitations == old(invitations)
    {
      if id !in invitations {
        return Err(NotFound);
      }
      var inv := invitations[id];
      if inv.user != caller {
        return Err(Forbidden);
      }
      if !IR.DeleteAllowed(inv) {
        return Err(BadRequest);
      }
      InvitationsOkRemove(invitations, rsvps, payments, nextId, id);
      invitations := invitations - {id};
      assert StoreOk(invitations, rsvps, payments, templates, categories, users, nextId);
      r := Ok(());
    }

    /** `getPublicInvitation`: the paid invitation holding the slug, whatever its
      status, with its view counter raised by one. */
    method GetPublicInvitation(slug: string) returns (r: Result<Invitation>)
      requires Valid()
      modifies this`invitations
      ensures Valid()
      ensures r.Ok? <==> exists id :: id in old(invitations) && IR.PublicMatch(old(invitations)[id], slug)
      ensures r.Err? ==> r == Err(NotFound) && invitations == old(invitations)
      ensures r.Ok? ==> exists id :: id in old(invitations) && IR.PublicMatch(old(invitations)[id], slug)
                          && r.value == old(invitations)[id].(views := old(invitations)[id].views + 1)
                          && invitations == old(invitations)[id := r.value]
    {
      if id :| id in invitations && IR.PublicMatch(invitations[id], slug) {
        var inv := invitations[id];
        var viewed := WithDefaultExpiry(inv.(views := inv.views + 1));
        InvitationsOkPut(invitations, rsvps, payments, nextId, id, viewed);
        invitations := invitations[id := viewed];
        assert StoreOk(invitations, rsvps, payments, templates, categories, users, nextId);
        r := Ok(viewed);
      } else {
        r := Err(NotFound);
      }
    }

    // ----- RSVPs -----

    /** `submitRSVP`: rewrite the guest's record, or create one and count it. */
    method SubmitRsvp(invitationId: Option<Id>, name: string, email: string, phone: Option<string>,
                      response: string, guests: Option<int>, message: Option<string>, now: string)
      returns (r: Result<RH.RsvpOutcome>)
      requires Valid()
      modifies this`rsvps, this`invitations
      ensures Valid()
      ensures r == RH.SubmitReply(old(invitations), old(rsvps), invitationId, name, email, phone, response, guests,
                               message, now)
      ensures r.Err? ==> rsvps == old(rsvps) && invitations == old(invitations)
      ensures r.Ok? && r.value.RsvpUpdated? ==>
                rsvps == old(rsvps)[r.value.at := r.value.rsvp] && invitations == old(invitations)
      ensures r.Ok? && r.value.RsvpCreated? ==>
                && r.value.rsvp.invitation in old(invitations)
                && rsvps == old(rsvps) + [r.value.rsvp]
                && invitations == RH.Counted(old(invitations), r.value.rsvp.invitation)
    {
      r := RH.SubmitReply(invitations, rsvps, invitationId, name, email, phone, response, guests, message, now);
      if r.Ok? {
        var o := r.value;
        RH.SubmitKeepsOk(invitations, rsvps, payments, templates, categories, users, nextId, invitationId, name,
                      email, phone, response, guests, message, now, o);
        if o.RsvpUpdated? {
          rsvps := rsvps[o.at := o.rsvp];
          assert StoreOk(invitations, rsvps, payments, templates, categories, users, nextId);
        } else {
          rsvps, invitations := rsvps + [o.rsvp], RH.Counted(invitations, o.rsvp.invitation);
          assert StoreOk(invitations, rsvps, payments, templates, categories, users, nextId);
        }
      }
    }

    /** `getRSVPsByInvitation`: the owner's RSVPs, newest first; as many as the
      invitation's counter says. */
    method GetRsvpsByInvitation(caller: Id, id: Id) returns (r: Result<seq<RM.Rsvp>>)
      requires Valid()
      ensures r == RH.ListReply(invitations, rsvps, caller, id)
      ensures r.Ok? ==> |r.value| == invitations[id].rsvpCount
    {
      r := RH.ListReply(invitations, rsvps, caller, id);
      if r.Ok? {
        RH.ListMatchesCounter(invitations, rsvps, payments, nextId, caller, id);
      }
    }

    /** `exportRSVPsCSV`: the same list as a CSV download. */
    method ExportRsvpsCsv(caller: Id, id: Id) returns (r: Result<RH.CsvDownload>)
      ensures r == RH.ExportReply(invitations, rsvps, caller, id)
    {
      r := RH.ExportReply(invitations, rsvps, caller, id);
    }

    // ----- payments -----

    /** `createOrder`: an accepted order is recorded as created, in rupees;
      `gatewayOrder` is the id of the order the gateway opened, if it did. */
    method CreateOrder(caller: Id, id: Id, gatewayOrder: Option<string>) returns (r: Result<PH.OrderReply>)
      requires Valid()
      modifies this`payments
      ensures Valid()
      ensures r == PH.OrderReplyOf(invitations, templates, caller, id, gatewayOrder)
      ensures payments == if r.Ok? then old(payments) + [PH.OrderRecord(caller, id, r.value)] else old(payments)
    {
      r := PH.OrderReplyOf(invitations, templates, caller, id, gatewayOrder);
      if r.Ok? {
        PH.AppendPaymentKeepsOk(invitations, rsvps, payments, nextId, PH.OrderRecord(caller, id, r.value));
        payments := payments + [PH.OrderRecord(caller, id, r.value)];
        assert StoreOk(invitations, rsvps, payments, templates, categories, users, nextId);
      }
    }

    /** `verifyPayment`: `sign` is the HMAC-SHA256 of a text under the
      gateway secret, as hex. The order's record is rewritten whatever the
      signature; only a matching one marks its invitation paid. */
    method VerifyPayment(orderId: string, paymentId: Option<string>, signature: Option<string>,
                         sign: string -> string)
      returns (r: Result<Invitation>)
      requires Valid()
      modifies this`payments, this`invitations
      ensures Valid()
      ensures var expected := sign(PH.SignedText(orderId, paymentId));
              && r == PH.VerifyReply(old(invitations), old(payments), orderId, signature, expected)
              && payments == PH.PaymentsAfterVerify(old(payments), orderId, paymentId, signature, expected)
      ensures r.Err? ==> invitations == old(invitations)
      ensures r.Ok? ==> var k := PM.FindOrder(old(payments), orderId).value;
                        invitations == old(invitations)[old(payments)[k].invitation := r.value]
    {
      var expected := sign(PH.SignedText(orderId, paymentId));
      r := PH.VerifyReply(invitations, payments, orderId, signature, expected);
      PH.VerifyKeepsOk(invitations, rsvps, payments, templates, categories, users, nextId, orderId, paymentId,
                    signature, expected);
      var ps := PH.PaymentsAfterVerify(payments, orderId, paymentId, signature, expected);
      if r.Ok? {
        var k := PM.FindOrder(payments, orderId).value;
        payments, invitations := ps, invitations[payments[k].invitation := r.value];
        assert StoreOk(invitations, rsvps, payments, templates, categories, users, nextId);
      } else {
        payments := ps;
        assert StoreOk(invitations, rsvps, payments, templates, categories, users, nextId);
      }
    }

    /** `getMyPayments`: the caller's captured payments, newest first. */
    method GetMyPayments(caller: Id) returns (ps: seq<PM.Payment>)
      ensures ps == PH.MyPayments(payments, caller)
    {
      ps := PH.MyPayments(payments, caller);
    }

    /** `getAllPayments`: every captured payment with the revenue they add up to. */
    method GetAllPayments() returns (report: PM.Report)
      ensures report == PM.AllPaymentsReport(payments)
      ensures report.totalRevenue == PM.Revenue(payments)
    {
      report := PM.AllPaymentsReport(payments);
    }

    // ----- categories -----

    /** `createCategory`: a new category under the next id. */
    method CreateCategory(name: string, description: string, thumbnail: string) returns (r: Result<Id>)
      requires Valid()
      modifies this`categories, this`nextId
      ensures Valid()
      ensures var reply := CH.CreateCategoryReply(old(categories), name, description, thumbnail);
              && (reply.Err? ==> r == Err(reply.failure) && categories == old(categories) && nextId == old(nextId))
              && (reply.Ok? ==> r == Ok(old(nextId)) && old(nextId) !in old(categories)
                                && categories == old(categories)[old(nextId) := reply.value]
                                && nextId == old(nextId) + 1)
    {
      var reply := CH.CreateCategoryReply(categories, name, description, thumbnail);
      if reply.Err? {
        r := Err(reply.failure);
      } else {
        CH.InsertCategoryOk(invitations, rsvps, payments, templates, categories, users, nextId, reply.value);
        r := Ok(nextId);
        categories, nextId := categories[nextId := reply.value], nextId + 1;
        assert StoreOk(invitations, rsvps, payments, templates, categories, users, nextId);
      }
    }

    /** `getCategories`. */
    method GetCategories() returns (r: map<Id, CH.CategoryView>)
      ensures r == CH.AllCategories(categories, templates)
    {
      r := CH.AllCategories(categories, templates);
    }

    /** `getCategoryById`. */
    method GetCategoryById(id: Id) returns (r: Result<CH.CategoryView>)
      ensures r == CH.CategoryReply(categories, templates, id)
    {
      r := CH.CategoryReply(categories, templates, id);
    }

    /** `updateCategory`: the truthy fields replace the stored ones. */
    method UpdateCategory(id: Id, name: string, description: string, thumbnail: string)
      returns (r: Result<CM.Category>)
      requires Valid()
      modifies this`categories
      ensures Valid()
      ensures r == CH.UpdateCategoryReply(old(categories), id, name, description, thumbnail)
      ensures categories == if r.Ok? then old(categories)[id := r.value] else old(categories)
    {
      r := CH.UpdateCategoryReply(categories, id, name, description, thumbnail);
      if r.Ok? {
        assert CM.Stored(categories[id]);
        CH.EditedCategoryStored(categories[id], name, description, thumbnail);
        CH.PutCategoryOk(categories, nextId, id, r.value);
        categories := categories[id := r.value];
        assert StoreOk(invitations, rsvps, payments, templates, categories, users, nextId);
      }
    }

    /** `deleteCategory`: only a category no template names. */
    method DeleteCategory(id: Id) returns (r: Result<()>)
      requires Valid()
      modifies this`categories
      ensures Valid()
      ensures r == CH.DeleteCategoryReply(old(categories), templates, id)
      ensures categories == if r.Ok? then old(categories) - {id} else old(categories)
    {
      r := CH.DeleteCategoryReply(categories, templates, id);
      if r.Ok? {
        CH.RemoveCategoryOk(categories, nextId, id);
        categories := categories - {id};
        assert StoreOk(invitations, rsvps, payments, templates, categories, users, nextId);
      }
    }

    /** `publishCategory`: needs three active templates. */
    method PublishCategory(id: Id) returns (r: Result<CM.Category>)
      requires Valid()
      modifies this`categories
      ensures Valid()
      ensures r == CH.PublishReply(old(categories), templates, id)
      ensures categories == if r.Ok? then old(categories)[id := r.value] else old(categories)
    {
      r := CH.PublishReply(categories, templates, id);
      if r.Ok? {
        CH.FlagKeepsOk(categories, nextId, id, true);
        categories := categories[id := r.value];
        assert StoreOk(invitations, rsvps, payments, templates, categories, users, nextId);
      }
    }

    /** `unpublishCategory`. */
    method UnpublishCategory(id: Id) returns (r: Result<CM.Category>)
      requires Valid()
      modifies this`categories
      ensures Valid()
      ensures r == CH.UnpublishReply(old(categories), id)
      ensures categories == if r.Ok? then old(categories)[id := r.value] else old(categories)
    {
      r := CH.UnpublishReply(categories, id);
      if r.Ok? {
        CH.FlagKeepsOk(categories, nextId, id, false);
        categories := categories[id := r.value];
        assert StoreOk(invitations, rsvps, payments, templates, categories, users, nextId);
      }
    }

    // ----- templates -----

    /** `createTemplate`: a new template under the next id. */
    method CreateTemplate(name: string, category: Option<Id>, previewImage: string, isPremium: Option<bool>,
                          price: Option<int>, config: Option<Blob>, componentName: Option<string>, now: int)
      returns (r: Result<Id>)
      requires Valid()
      modifies this`templates, this`nextId
      ensures Valid()
      ensures var reply := TH.CreateTemplateReply(name, category, previewImage, isPremium, price, config,
                                                  componentName, now);
              && (reply.Err? ==> r == Err(reply.failure) && templates == old(templates) && nextId == old(nextId))
              && (reply.Ok? ==> r == Ok(old(nextId)) && old(nextId) !in old(templates)
                                && templates == old(templates)[old(nextId) := reply.value]
                                && nextId == old(nextId) + 1)
    {
      var reply := TH.CreateTemplateReply(name, category, previewImage, isPremium, price, config, componentName, now);
      if reply.Err? {
        r := Err(reply.failure);
      } else {
        TH.InsertTemplateOk(invitations, rsvps, payments, templates, categories, users, nextId, reply.value);
        r := Ok(nextId);
        templates, nextId := templates[nextId := reply.value], nextId + 1;
        assert StoreOk(invitations, rsvps, payments, templates, categories, users, nextId);
      }
    }

    /** `getTemplates`. */
    method GetTemplates() returns (r: map<Id, TM.Template>)
      ensures r == templates
    {
      r := templates;
    }

    /** `getTemplatesByCategory`: active or not. */
    method GetTemplatesByCategory(category: Id) returns (ids: set<Id>)
      ensures forall id :: id in ids <==> id in templates && templates[id].category == category
    {
      ids := PQ.TemplatesIn(templates, category);
    }

    /** `getTemplateById`. */
    method GetTemplateById(id: Id) returns (r: Result<TM.Template>)
      ensures r == TH.TemplateReply(templates, id)
    {
      r := TH.TemplateReply(templates, id);
    }

    /** `updateTemplate`. */
    method UpdateTemplate(id: Id, name: string, category: Option<Id>, previewImage: string, isPremium: Option<bool>,
                          price: Option<int>, config: Option<Blob>, componentName: string, isActive: Option<bool>)
      returns (r: Result<TM.Template>)
      requires Valid()
      modifies this`templates
      ensures Valid()
      ensures r == TH.UpdateTemplateReply(old(templates), id, name, category, previewImage, isPremium, price, config,
                                          componentName, isActive)
      ensures templates == if r.Ok? then old(templates)[id := r.value] else old(templates)
    {
      r := TH.UpdateTemplateReply(templates, id, name, category, previewImage, isPremium, price, config,
                                  componentName, isActive);
      if r.Ok? {
        TH.UpdatedTemplateStored(templates, id, name, category, previewImage, isPremium, price, config,
                                 componentName, isActive);
        TH.PutTemplateOk(templates, nextId, id, r.value);
        templates := templates[id := r.value];
        assert StoreOk(invitations, rsvps, payments, templates, categories, users, nextId);
      }
    }

    /** `deleteTemplate`: only a template no paid invitation uses. */
    method DeleteTemplate(id: Id) returns (r: Result<()>)
      requires Valid()
      modifies this`templates
      ensures Valid()
      ensures r == TH.DeleteTemplateReply(old(templates), invitations, id)
      ensures templates == if r.Ok? then old(templates) - {id} else old(templates)
    {
      r := TH.DeleteTemplateReply(templates, invitations, id);
      if r.Ok? {
        templates := templates - {id};
        assert StoreOk(invitations, rsvps, payments, templates, categories, users, nextId);
      }
    }

    /** `activateTemplate` (`active` true) and `deactivateTemplate` (false). */
    method SetTemplateActive(id: Id, active: bool) returns (r: Result<TM.Template>)
      requires Valid()
      modifies this`templates
      ensures Valid()
      ensures r == TH.ToggleReply(old(templates), id, active)
      ensures id in old(templates) && (!old(templates)[id].isPremium || old(templates)[id].price > 0) ==>
                r == Ok(old(templates)[id].(isActive := active))
      ensures id in old(templates) && old(templates)[id].isPremium && old(templates)[id].price == 0 ==>
                r == Err(Invalid)
      ensures templates == if r.Ok? then old(templates)[id := r.value] else old(templates)
    {
      r := TH.ToggleReply(templates, id, active);
      if r.Ok? {
        TH.PutTemplateOk(templates, nextId, id, r.value);
        templates := templates[id := r.value];
        assert StoreOk(invitations, rsvps, payments, templates, categories, users, nextId);
      }
    }
      // ----- storefront -----

    /** `getPublicCategories`. */
    method GetPublicCategories() returns (ids: set<Id>)
      ensures forall id :: id in ids <==> id in categories && categories[id].isPublished
    {
      ids := PQ.PublishedCategories(categories);
    }

    /** `getAllPublicTemplates`. */
    method GetAllPublicTemplates() returns (ids: set<Id>)
      ensures forall id :: id in ids <==> id in templates && templates[id].isActive
    {
      ids := PQ.ActiveTemplates(templates);
    }

    /** `getPublicTemplates`: a published category by slug, with its active templates. */
    method GetPublicTemplates(slug: string) returns (r: Result<PQ.CategoryPage>)
      requires Valid()
      ensures r == PQ.CategoryPageReply(categories, templates, nextId, slug)
      ensures r.Err? <==> forall id :: id in categories ==> !(categories[id].isPublished && categories[id].slug == Lower(slug))
    {
      r := PQ.CategoryPageReply(categories, templates, nextId, slug);
    }

    /** `getPublicTemplateById`. */
    method GetPublicTemplateById(id: Id) returns (r: Result<TM.Template>)
      ensures r == PQ.PublicTemplateReply(templates, id)
    {
      r := PQ.PublicTemplateReply(templates, id);
    }

    // ----- accounts -----

    /** `registerUser`: a new customer under the next id unless the address is taken. */
    method RegisterUser(name: string, email: string, password: string) returns (r: Result<Id>)
      requires Valid()
      modifies this`users, this`nextId
      ensures Valid()
      ensures var reply := UH.RegisterReply(old(users), old(nextId), name, email, password);
              && (reply.Err? ==> r == Err(reply.failure) && users == old(users) && nextId == old(nextId))
              && (reply.Ok? ==> r == Ok(old(nextId)) && old(nextId) !in old(users)
                                && users == old(users)[old(nextId) := reply.value]
                                && nextId == old(nextId) + 1)
      ensures r.Err? <==> exists id :: id in old(users) && old(users)[id].email == email
    {
      var reply := UH.RegisterReply(users, nextId, name, email, password);
      if reply.Err? {
        r := Err(reply.failure);
      } else {
        UH.InsertUserOk(users, nextId, name, email, password);
        OkGrow(invitations, rsvps, payments, templates, categories, users, nextId, nextId + 1);
        r := Ok(nextId);
        users, nextId := users[nextId := reply.value], nextId + 1;
        assert StoreOk(invitations, rsvps, payments, templates, categories, users, nextId);
      }
    }

    /** `authUser`: `matches` is bcrypt's comparison. */
    method Login(email: string, password: string, matches: (string, string) -> bool) returns (r: Result<Id>)
      ensures r == UH.LoginReply(users, nextId, email, password, matches)
    {
      r := UH.LoginReply(users, nextId, email, password, matches);
    }

    /** `protect`: `decode` is the JWT verification of the access token. */
    method Authenticate(cookie: Option<string>, authorization: Option<string>, decode: string -> Option<Id>)
      returns (r: Result<Id>)
      ensures r.Ok? ==> r.value in users
      ensures cookie.Some? && cookie.value != "" ==> r == AM.Authenticate(users, cookie, decode)
      ensures cookie.None? || cookie.value == "" ==>
        r == AM.Authenticate(users, if authorization.Some? then AM.BearerPiece(authorization.value) else None, decode)
    {
      r := AM.Protect(users, cookie, authorization, decode);
    }

    /** `refreshAccessToken`: `decode` is the JWT verification of the refresh token. */
    method Refresh(token: Option<string>, decode: string -> Option<Id>) returns (r: Result<Id>)
      ensures r == UH.RefreshReply(users, token, decode)
    {
      r := UH.RefreshReply(users, token, decode);
    }

    /** `updateUserProfile`. */
    method UpdateUserProfile(caller: Id, name: string, email: string, password: string) returns (r: Result<UM.User>)
      requires Valid()
      modifies this`users
      ensures Valid()
      ensures r == UH.ProfileReply(old(users), caller, name, email, password)
      ensures users == if r.Ok? then old(users)[caller := r.value] else old(users)
    {
      r := UH.ProfileReply(users, caller, name, email, password);
      if r.Ok? {
        UH.PutUserOk(users, nextId, caller, r.value);
        users := users[caller := r.value];
        assert StoreOk(invitations, rsvps, payments, templates, categories, users, nextId);
      }
    }

    /** `changePassword`: `matches` is bcrypt's comparison. */
    method ChangePassword(caller: Id, current: string, newPassword: string, matches: (string, string) -> bool)
      returns (r: Result<()>)
      requires Valid()
      modifies this`users
      ensures Valid()
      ensures var reply := UH.ChangePasswordReply(old(users), caller, current, newPassword, matches);
              && (reply.Err? ==> r == Err(reply.failure) && users == old(users))
              && (reply.Ok? ==> r == Ok(()) && users == old(users)[caller := reply.value])
    {
      var reply := UH.ChangePasswordReply(users, caller, current, newPassword, matches);
      if reply.Err? {
        r := Err(reply.failure);
      } else {
        UH.PutUserOk(users, nextId, caller, reply.value);
        r := Ok(());
        users := users[caller := reply.value];
        assert StoreOk(invitations, rsvps, payments, templates, categories, users, nextId);
      }
    }

    /** `forgotPassword`: `digest` is the SHA-256 digest of the fresh random
      token and `delivered` whether the mail went out. The token is saved
      first; an undelivered one is cleared in a second save and answered 500. */
    method ForgotPassword(email: string, digest: string, now: int, delivered: bool) returns (r: Result<()>)
      requires Valid()
      modifies this`users
      ensures Valid()
      ensures var target := UH.ForgotTarget(old(users), old(nextId), email);
              && (target.Err? ==> r == Err(NotFound) && users == old(users))
              && (target.Ok? ==> users == old(users)[target.value := UH.AfterForgot(old(users)[target.value], digest, now, delivered)]
                                 && r == (if delivered then Ok(()) else Err(ServerError)))
    {
      var target := UH.ForgotTarget(users, nextId, email);
      if target.Err? {
        r := Err(NotFound);
      } else {
        var k := target.value;
        users := users[k := UM.WithResetToken(users[k], digest, now)];
        assert StoreOk(invitations, rsvps, payments, templates, categories, users, nextId);
        if delivered {
          r := Ok(());
        } else {
          users := users[k := UM.WithoutResetToken(users[k])];
          assert StoreOk(invitations, rsvps, payments, templates, categories, users, nextId);
          r := Err(ServerError);
        }
      }
    }

    /** `resetPassword`: `digest` is the SHA-256 digest of the token in the link. */
    method ResetPassword(digest: string, now: int, password: string) returns (r: Result<Id>)
      requires Valid()
      modifies this`users
      ensures Valid()
      ensures var reply := UH.ResetReply(old(users), old(nextId), digest, now, password);
              && (reply.Err? ==> r == Err(reply.failure) && users == old(users))
              && (reply.Ok? ==> r == Ok(reply.value.0) && users == old(users)[reply.value.0 := reply.value.1])
    {
      var reply := UH.ResetReply(users, nextId, digest, now, password);
      if reply.Err? {
        r := Err(reply.failure);
      } else {
        UH.PutUserOk(users, nextId, reply.value.0, reply.value.1);
        r := Ok(reply.value.0);
        users := users[reply.value.0 := reply.value.1];
        assert StoreOk(invitations, rsvps, payments, templates, categories, users, nextId);
      }
    }

    /** `getUsers`: every account as stored. */
    method GetUsers() returns (r: map<Id, UM.User>)
      ensures r == users
    {
      r := users;
    }

    /** `getAllUsers`. */
    method GetAllUsers() returns (r: map<Id, UM.PublicUser>)
      ensures r == UH.AllUsers(users)
    {
      r := UH.AllUsers(users);
    }

    /** `getUserById`. */
    method GetUserById(id: Id) returns (r: Result<UM.PublicUser>)
      ensures r == UH.UserReply(users, id)
    {
      r := UH.UserReply(users, id);
    }

    /** `updateUserRole`. */
    method UpdateUserRole(id: Id, role: string) returns (r: Result<UM.User>)
      requires Valid()
      modifies this`users
      ensures Valid()
      ensures r == UH.RoleReply(old(users), id, role)
      ensures users == if r.Ok? then old(users)[id := r.value] else old(users)
    {
      r := UH.RoleReply(users, id, role);
      if r.Ok? {
        UH.PutUserOk(users, nextId, id, r.value);
        users := users[id := r.value];
        assert StoreOk(invitations, rsvps, payments, templates, categories, users, nextId);
      }
    }
  }
}
