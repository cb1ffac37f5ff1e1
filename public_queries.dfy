/** The filters behind the listings: the storefront's published categories
    and active templates, and the counts the admin guards consult. */
module PublicQueries {
  import opened Common
  import opened TemplateModel
  import opened CategoryModel
  import opened InvitationModel
  import opened Text

  /** `Category.find({ isPublished: true })`. */
  function PublishedCategories(cs: map<Id, Category>): (r: set<Id>)
    ensures forall id :: id in r <==> id in cs && cs[id].isPublished
  {
    set id | id in cs && cs[id].isPublished
  }

  /** `Template.find({ isActive: true })`. */
  function ActiveTemplates(ts: map<Id, Template>): (r: set<Id>)
    ensures forall id :: id in r <==> id in ts && ts[id].isActive
  {
    set id | id in ts && ts[id].isActive
  }

  /** `Template.find({ category, isActive: true })`, also what `publishCategory` counts. */
  function ActiveIn(ts: map<Id, Template>, category: Id): (r: set<Id>)
    ensures forall id :: id in r <==> id in ts && ts[id].isActive && ts[id].category == category
  {
    set id | id in ts && ts[id].isActive && ts[id].category == category
  }

  /** `Template.countDocuments({ category })`: active or not. */
  function TemplatesIn(ts: map<Id, Template>, category: Id): (r: set<Id>)
    ensures forall id :: id in r <==> id in ts && ts[id].category == category
  {
    set id | id in ts && ts[id].category == category
  }

  /** `Invitation.countDocuments({ template, isPaid: true })`. */
  function PaidUsing(invs: map<Id, Invitation>, template: Id): (r: set<Id>)
    ensures forall id :: id in r <==> id in invs && invs[id].template == Some(template) && invs[id].isPaid
  {
    set id | id in invs && invs[id].template == Some(template) && invs[id].isPaid
  }

  /** The category listing of a published category holds exactly its active
      templates: those are active, and are in that category. */
  lemma ActiveInIsBoth(ts: map<Id, Template>, category: Id)
    ensures ActiveIn(ts, category) == ActiveTemplates(ts) * TemplatesIn(ts, category)
  {
  }

  /** Deactivating a template removes it from every active listing, and leaves
      every other template where it was. */
  lemma DeactivateShrinksListing(ts: map<Id, Template>, id: Id, category: Id)
    requires id in ts
    ensures ActiveIn(ts[id := ts[id].(isActive := false)], category) == ActiveIn(ts, category) - {id}
    ensures |ActiveIn(ts[id := ts[id].(isActive := false)], category)| <= |ActiveIn(ts, category)|
  {
    assert ActiveIn(ts[id := ts[id].(isActive := false)], category) <= ActiveIn(ts, category);
  }
  /** `Category.findOne({ slug, isPublished: true })`, the slug cast through
      the path's `lowercase` setter: the earliest-created match below `bound`. */
  function PublishedWithSlug(cs: map<Id, Category>, bound: nat, slug: string): (k: Option<Id>)
    ensures k.Some? ==> k.value < bound && k.value in cs && cs[k.value].isPublished && cs[k.value].slug == Lower(slug)
    ensures k.None? ==> forall id :: id < bound && id in cs ==> !(cs[id].isPublished && cs[id].slug == Lower(slug))
  {
    if bound == 0 then None
    else match PublishedWithSlug(cs, bound - 1, slug)
      case Some(k) => Some(k)
      case None =>
        if bound - 1 in cs && cs[bound - 1].isPublished && cs[bound - 1].slug == Lower(slug) then Some(bound - 1)
        else None
  }

  /** The storefront page of one category: the category and its active templates. */
  datatype CategoryPage = CategoryPage(id: Id, category: Category, templates: set<Id>)

  /** `getPublicTemplates`: 404 unless a published category has the slug. */
  function CategoryPageReply(cs: map<Id, Category>, ts: map<Id, Template>, bound: nat, slug: string)
    : (r: Result<CategoryPage>)
    ensures r.Err? <==> forall id :: id < bound && id in cs ==> !(cs[id].isPublished && cs[id].slug == Lower(slug))
    ensures r.Err? ==> r.failure == NotFound
    ensures r.Ok? ==> r.value.id in cs && r.value.category == cs[r.value.id]
    ensures r.Ok? ==> r.value.category.isPublished && r.value.category.slug == Lower(slug)
    ensures r.Ok? ==> r.value.templates == ActiveIn(ts, r.value.id)
  {
    match PublishedWithSlug(cs, bound, slug)
    case None => Err(NotFound)
    case Some(k) => Ok(CategoryPage(k, cs[k], ActiveIn(ts, k)))
  }

  /** With unique slugs the page is the one of the only category holding the
      slug, and a slug given in capitals finds the same page. */
  lemma CategoryPageUnique(cs: map<Id, Category>, ts: map<Id, Template>, bound: nat, slug: string, id: Id)
    requires UniqueNamesAndSlugs(cs)
    requires id < bound && id in cs && cs[id].isPublished && cs[id].slug == Lower(slug)
    ensures CategoryPageReply(cs, ts, bound, slug) == Ok(CategoryPage(id, cs[id], ActiveIn(ts, id)))
    ensures CategoryPageReply(cs, ts, bound, Lower(slug)) == CategoryPageReply(cs, ts, bound, slug)
  {
    LowerIdempotent(slug);
  }

  /** `getPublicTemplateById`: 404 for a missing template and for an inactive one. */
  function PublicTemplateReply(ts: map<Id, Template>, id: Id): (r: Result<Template>)
    ensures r.Ok? <==> id in ts && ts[id].isActive
    ensures r.Ok? ==> r.value == ts[id]
    ensures r.Err? ==> r.failure == NotFound
  {
    if id !in ts || !ts[id].isActive then Err(NotFound) else Ok(ts[id])
  }

  /** A template opens on the storefront exactly when the storefront lists it,
      and then it is listed on its category's page too. */
  lemma PublicTemplateListed(ts: map<Id, Template>, id: Id)
    ensures PublicTemplateReply(ts, id).Ok? <==> id in ActiveTemplates(ts)
    ensures PublicTemplateReply(ts, id).Ok? ==> id in ActiveIn(ts, ts[id].category)
  {
  }
}
