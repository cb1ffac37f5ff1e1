/** The Category schema: the slug derived from the name by the pre-save hook,
    and the shape every stored category keeps. */
module CategoryModel {
  import opened Common
  import opened Text

  datatype Category = Category(name: string, slug: string, description: string,
                               isPublished: bool, thumbnail: string)

  /** The hook's expression `name.toLowerCase().split(' ').join('-')`, followed by
      the `lowercase` setter of the slug path. */
  function SlugOf(name: string): string {
    Lower(JoinWith(Split(Lower(name), ' '), "-"))
  }

  /** The slug is the lower-cased name with each single space turned into one
      hyphen, character for character: "Baby Shower" gives "baby-shower",
      two spaces give two hyphens. */
  lemma SlugOfSpec(name: string)
    ensures |SlugOf(name)| == |name|
    ensures forall i :: 0 <= i < |name| ==>
              SlugOf(name)[i] == if name[i] == ' ' then '-' else LowerChar(name[i])
  {
    JoinSplit(Lower(name), ' ', '-');
  }

  /** The slug holds no space and no upper-case letter. */
  lemma SlugOfShape(name: string)
    ensures ' ' !in SlugOf(name)
    ensures forall i :: 0 <= i < |SlugOf(name)| ==> !IsUpper(SlugOf(name)[i])
  {
    SlugOfSpec(name);
  }

  /** The pre-save hook: the slug is recomputed only when `name` was modified. */
  function PreSave(c: Category, nameModified: bool): (r: Category)
    ensures r.(slug := c.slug) == c
    ensures nameModified ==> r.slug == SlugOf(c.name)
    ensures !nameModified ==> r.slug == c.slug
  {
    if nameModified then c.(slug := SlugOf(c.name)) else c
  }

  /** The character the hook writes into the slug for one character of the name. */
  function SlugChar(c: char): char {
    if c == ' ' then '-' else LowerChar(c)
  }

  /** `slug` is the slug of `name`, stated character by character. */
  predicate SlugMatches(name: string, slug: string) {
    |slug| == |name| && forall i :: 0 <= i < |name| ==> slug[i] == SlugChar(name[i])
  }

  lemma SlugMatchesOf(name: string, slug: string)
    ensures SlugMatches(name, slug) <==> slug == SlugOf(name)
  {
    SlugOfSpec(name);
  }

  /** A stored category: its name trimmed and non-empty (the `trim` setter and
      `required`), its slug the one derived from that name. */
  predicate Stored(c: Category) {
    c.name != "" && Trimmed(c.name) && SlugMatches(c.name, c.slug)
  }

  /** The unique indexes on `name` and on `slug`. */
  predicate UniqueNamesAndSlugs(m: map<Id, Category>) {
    forall a, b :: a in m && b in m && a != b ==> m[a].name != m[b].name && m[a].slug != m[b].slug
  }

  /** Another category than `self` already holds this name or slug. */
  predicate Clashes(m: map<Id, Category>, self: Option<Id>, c: Category) {
    exists other :: other in m && Some(other) != self && (m[other].name == c.name || m[other].slug == c.slug)
  }

  /** Writing a category that clashes with no other keeps both indexes unique. */
  lemma PutKeepsUnique(m: map<Id, Category>, id: Id, c: Category)
    requires UniqueNamesAndSlugs(m)
    requires !Clashes(m, Some(id), c)
    ensures UniqueNamesAndSlugs(m[id := c])
  {
    var m' := m[id := c];
    forall a, b | a in m' && b in m' && a != b
      ensures m'[a].name != m'[b].name && m'[a].slug != m'[b].slug
    {
      if a == id {
        assert !(b in m && Some(b) != Some(id) && (m[b].name == c.name || m[b].slug == c.slug));
      } else if b == id {
        assert !(a in m && Some(a) != Some(id) && (m[a].name == c.name || m[a].slug == c.slug));
      }
    }
  }
}
