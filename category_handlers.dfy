/** The decisions of the category administration handlers as pure functions
    of the stored categories and templates and the request, with the lemmas
    that show an accepted request keeps the categories in order. Absent text
    fields of a request are the empty string, which is falsy as well. */
module CategoryHandlers {
  import opened Common
  import opened Text
  import opened InvitationModel
  import opened StoreInvariants
  import TM = TemplateModel
  import CM = CategoryModel
  import RM = RsvpModel
  import UM = UserModel
  import PM = PaymentModel
  import PQ = PublicQueries

  /** A category as `populate('templates')` shows it: with the number of
      templates, active or not, that name it. */
  datatype CategoryView = CategoryView(category: CM.Category, templates: nat)

  /** `Category.findOne({ name })`: the query casts the name through the
      `trim` setter. */
  predicate NameTaken(cs: map<Id, CM.Category>, name: string) {
    exists other :: other in cs && cs[other].name == Trim(name)
  }

  /** The document `Category.create` saves: the trimmed name, the slug the hook
      derives from it, not published. */
  function NewCategory(name: string, description: string, thumbnail: string): (c: CM.Category)
    ensures c.name == Trim(name) && c.description == description && c.thumbnail == thumbnail
    ensures !c.isPublished
    ensures c.slug == CM.SlugOf(Trim(name))
    ensures c.name != "" ==> CM.Stored(c)
  {
    var n := Trim(name);
    CM.SlugMatchesOf(n, CM.SlugOf(n));
    CM.PreSave(CM.Category(n, "", description, false, thumbnail), true)
  }

  /** The reply of `createCategory`: 400 when the name is taken, the
      validation error for a blank name, the duplicate-key error when another
      category already holds the derived slug. */
  function CreateCategoryReply(cs: map<Id, CM.Category>, name: string, description: string, thumbnail: string)
    : (r: Result<CM.Category>)
    ensures NameTaken(cs, name) ==> r == Err(BadRequest)
    ensures !NameTaken(cs, name) && Trim(name) == "" ==> r == Err(Invalid)
    ensures r.Ok? <==> !NameTaken(cs, name) && Trim(name) != ""
                       && !CM.Clashes(cs, None, NewCategory(name, description, thumbnail))
    ensures r.Err? ==> r == Err(BadRequest) || r == Err(Invalid) || r == Err(Duplicate)
    ensures r.Ok? ==> r.value == NewCategory(name, description, thumbnail) && CM.Stored(r.value)
  {
    if NameTaken(cs, name) then Err(BadRequest)
    else if Trim(name) == "" then Err(Invalid)
    else if CM.Clashes(cs, None, NewCategory(name, description, thumbnail)) then Err(Duplicate)
    else Ok(NewCategory(name, description, thumbnail))
  }

  /** A created category goes in under the next id and keeps the categories
      in order. */
  lemma InsertCategoryOk(invs: map<Id, Invitation>, rsvps: seq<RM.Rsvp>, payments: seq<PM.Payment>,
                         ts: map<Id, TM.Template>, cs: map<Id, CM.Category>, us: map<Id, UM.User>, nextId: nat,
                         c: CM.Category)
    requires StoreOk(invs, rsvps, payments, ts, cs, us, nextId)
    requires CM.Stored(c) && !CM.Clashes(cs, None, c)
    ensures nextId !in cs
    ensures StoreOk(invs, rsvps, payments, ts, cs[nextId := c], us, nextId + 1)
  {
    OkGrow(invs, rsvps, payments, ts, cs, us, nextId, nextId + 1);
    assert !CM.Clashes(cs, Some(nextId), c);
    CM.PutKeepsUnique(cs, nextId, c);
  }

  /** `getCategoryById`. */
  function CategoryReply(cs: map<Id, CM.Category>, ts: map<Id, TM.Template>, id: Id): (r: Result<CategoryView>)
    ensures id !in cs ==> r == Err(NotFound)
    ensures id in cs ==> r.Ok? && r.value.category == cs[id] && r.value.templates == |PQ.TemplatesIn(ts, id)|
  {
    if id !in cs then Err(NotFound) else Ok(CategoryView(cs[id], |PQ.TemplatesIn(ts, id)|))
  }

  /** `getCategories`: every category with its template count. */
  function AllCategories(cs: map<Id, CM.Category>, ts: map<Id, TM.Template>): (r: map<Id, CategoryView>)
    ensures r.Keys == cs.Keys
    ensures forall id :: id in r ==> CategoryReply(cs, ts, id) == Ok(r[id])
  {
    map id | id in cs :: CategoryView(cs[id], |PQ.TemplatesIn(ts, id)|)
  }

  /** The document `updateCategory` saves: each truthy request field replaces
      the stored one, and the hook derives the slug again when the name
      changed. */
  function EditedCategory(c: CM.Category, name: string, description: string, thumbnail: string): (r: CM.Category)
    ensures r.name == (if name != "" then Trim(name) else c.name)
    ensures r.description == (if description != "" then description else c.description)
    ensures r.thumbnail == (if thumbnail != "" then thumbnail else c.thumbnail)
    ensures r.isPublished == c.isPublished
    ensures r.name != c.name ==> r.slug == CM.SlugOf(r.name)
    ensures r.name == c.name ==> r.slug == c.slug
  {
    var n := if name != "" then Trim(name) else c.name;
    CM.PreSave(c.(name := n, description := if description != "" then description else c.description,
                  thumbnail := if thumbnail != "" then thumbnail else c.thumbnail), n != c.name)
  }

  /** An edited category is stored in order when its name is not blank: the
      slug follows the name whether or not it changed. */
  lemma EditedCategoryStored(c: CM.Category, name: string, description: string, thumbnail: string)
    requires CM.Stored(c)
    requires EditedCategory(c, name, description, thumbnail).name != ""
    ensures CM.Stored(EditedCategory(c, name, description, thumbnail))
  {
    var e := EditedCategory(c, name, description, thumbnail);
    CM.SlugMatchesOf(e.name, e.slug);
    CM.SlugMatchesOf(c.name, c.slug);
  }

  /** The reply of `updateCategory`: 404 for an unknown id, the validation
      error when the new name is blank, the duplicate-key error when another
      category holds the new name or slug. */
  function UpdateCategoryReply(cs: map<Id, CM.Category>, id: Id, name: string, description: string,
                               thumbnail: string): (r: Result<CM.Category>)
    ensures id !in cs ==> r == Err(NotFound)
    ensures id in cs ==>
              var e := EditedCategory(cs[id], name, description, thumbnail);
              && (r.Ok? <==> e.name != "" && !CM.Clashes(cs, Some(id), e))
              && (r.Ok? ==> r.value == e)
              && (r.Err? ==> r == Err(Invalid) || r == Err(Duplicate))
  {
    if id !in cs then Err(NotFound)
    else
      var e := EditedCategory(cs[id], name, description, thumbnail);
      if e.name == "" then Err(Invalid)
      else if CM.Clashes(cs, Some(id), e) then Err(Duplicate)
      else Ok(e)
  }

  /** Writing a stored-shape category that clashes with no other keeps the
      categories in order. */
  lemma PutCategoryOk(cs: map<Id, CM.Category>, nextId: nat, id: Id, c: CM.Category)
    requires CategoriesOk(cs, nextId) && id in cs
    requires CM.Stored(c) && !CM.Clashes(cs, Some(id), c)
    ensures CategoriesOk(cs[id := c], nextId)
  {
    CM.PutKeepsUnique(cs, id, c);
  }

  /** `deleteCategory`: refused while any template, active or not, names it. */
  function DeleteCategoryReply(cs: map<Id, CM.Category>, ts: map<Id, TM.Template>, id: Id): (r: Result<()>)
    ensures id !in cs ==> r == Err(NotFound)
    ensures id in cs ==> (r.Ok? <==> forall t :: t in ts ==> ts[t].category != id)
    ensures r.Err? ==> r == Err(NotFound) || r == Err(BadRequest)
  {
    if id !in cs then Err(NotFound)
    else if |PQ.TemplatesIn(ts, id)| > 0 then Err(BadRequest)
    else Ok(())
  }

  /** The minimum number of active templates a published category needs. */
  const MinPublishedTemplates: nat := 3

  /** `publishCategory`: refused below three active templates; otherwise the
      category is published. */
  function PublishReply(cs: map<Id, CM.Category>, ts: map<Id, TM.Template>, id: Id): (r: Result<CM.Category>)
    ensures id !in cs ==> r == Err(NotFound)
    ensures id in cs ==> (r.Ok? <==> |PQ.ActiveIn(ts, id)| >= 3)
    ensures r.Err? ==> r == Err(NotFound) || r == Err(BadRequest)
    ensures r.Ok? ==> r.value == cs[id].(isPublished := true)
  {
    if id !in cs then Err(NotFound)
    else if |PQ.ActiveIn(ts, id)| < MinPublishedTemplates then Err(BadRequest)
    else Ok(cs[id].(isPublished := true))
  }

  /** `unpublishCategory`: always allowed on a stored category. */
  function UnpublishReply(cs: map<Id, CM.Category>, id: Id): (r: Result<CM.Category>)
    ensures id !in cs ==> r == Err(NotFound)
    ensures id in cs ==> r == Ok(cs[id].(isPublished := false))
  {
    if id !in cs then Err(NotFound) else Ok(cs[id].(isPublished := false))
  }

  /** Changing only the published flag keeps the categories in order. */
  lemma FlagKeepsOk(cs: map<Id, CM.Category>, nextId: nat, id: Id, published: bool)
    requires CategoriesOk(cs, nextId) && id in cs
    ensures CategoriesOk(cs[id := cs[id].(isPublished := published)], nextId)
  {
    var c := cs[id].(isPublished := published);
    assert !CM.Clashes(cs, Some(id), c);
    CM.PutKeepsUnique(cs, id, c);
  }

  /** Removing a category keeps the others in order. */
  lemma RemoveCategoryOk(cs: map<Id, CM.Category>, nextId: nat, id: Id)
    requires CategoriesOk(cs, nextId)
    ensures CategoriesOk(cs - {id}, nextId)
  {
    var m := cs - {id};
    assert forall a :: a in m ==> a in cs && m[a] == cs[a];
  }
}
