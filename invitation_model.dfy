/** The Invitation schema: the record and its defaults, the status enumeration,
    the required event fields, the pre-save expiry hook, the `isExpired` virtual
    and the partial filter of the TTL index. */
module InvitationModel {
  import opened Common

  datatype Status = Draft | Published | Expired

  function StatusName(s: Status): string {
    match s
    case Draft => "draft"
    case Published => "published"
    case Expired => "expired"
  }

  /** The enum validator on `status`. */
  function ParseStatus(s: string): (r: Option<Status>)
    ensures r.Some? ==> StatusName(r.value) == s
    ensures r.None? ==> forall k :: StatusName(k) != s
  {
    match s
    case "draft" => Some(Draft)
    case "published" => Some(Published)
    case "expired" => Some(Expired)
    case _ => None
  }

  /** The event fields. The three the schema requires are explicit; host, time,
      address, contact, message, RSVP deadline, map link and images are `details`. */
  datatype Content = Content(eventName: string, eventDate: Option<int>, venue: string, details: Blob)

  /** The `required` validators: a non-empty event name and venue and an event date. */
  predicate ContentValid(c: Content) {
    c.eventName != "" && c.eventDate.Some? && c.venue != ""
  }

  datatype Invitation = Invitation(
    user: Id, template: Option<Id>, design: Option<Blob>, slug: string,
    content: Content, customData: Blob, isPaid: bool, price: int,
    payment: Option<nat>, status: Status, views: nat, rsvpCount: nat,
    expiresAt: Option<int>, autoDelete: bool)

  /** Thirty days in milliseconds. */
  const ExpiryGraceMs: int := 30 * 24 * 60 * 60 * 1000

  /** A new document with the schema defaults for every field the create call
      does not set: no payment, no views, no RSVPs, no expiry, auto-delete on. */
  function Fresh(user: Id, template: Option<Id>, design: Option<Blob>, slug: string,
                 content: Content, customData: Blob, isPaid: bool, price: int,
                 status: Status): (inv: Invitation)
    ensures inv.user == user && inv.template == template && inv.design == design
    ensures inv.slug == slug && inv.content == content && inv.customData == customData
    ensures inv.isPaid == isPaid && inv.price == price && inv.status == status
    ensures inv.views == 0 && inv.rsvpCount == 0 && inv.payment == None
    ensures inv.expiresAt == None && inv.autoDelete
  {
    Invitation(user, template, design, slug, content, customData, isPaid, price,
               None, status, 0, 0, None, true)
  }

  /** The pre-save hook: an unset expiry is filled in as the event date plus
      2,592,000,000 ms; a set expiry is never touched, and nothing else changes. */
  function WithDefaultExpiry(inv: Invitation): (r: Invitation)
    ensures r.(expiresAt := inv.expiresAt) == inv
    ensures inv.expiresAt.Some? ==> r == inv
    ensures inv.expiresAt.None? && inv.content.eventDate.Some? ==>
              r.expiresAt == Some(inv.content.eventDate.value + 2592000000)
    ensures inv.content.eventDate.None? ==> r == inv
  {
    if inv.expiresAt.None? && inv.content.eventDate.Some? then
      inv.(expiresAt := Some(inv.content.eventDate.value + ExpiryGraceMs))
    else inv
  }

  /** Once saved, an invitation keeps its expiry across later saves, even when
      its event date changes in between. */
  lemma ExpiryNotRecomputed(inv: Invitation, later: Content)
    requires inv.content.eventDate.Some?
    ensures WithDefaultExpiry(WithDefaultExpiry(inv).(content := later)).expiresAt
            == WithDefaultExpiry(inv).expiresAt
  {
  }

  /** The `isExpired` virtual: never with no expiry, otherwise strictly after it. */
  predicate IsExpired(inv: Invitation, now: int) {
    inv.expiresAt.Some? && now > inv.expiresAt.value
  }

  /** An invitation saved without an expiry, for an event on `d`, is expired
      exactly from thirty days after `d` on. */
  lemma ExpiredAfterGrace(inv: Invitation, now: int)
    requires inv.expiresAt.None? && inv.content.eventDate.Some?
    ensures IsExpired(WithDefaultExpiry(inv), now) <==> now > inv.content.eventDate.value + 2592000000
  {
  }

  /** Once expired, an invitation stays expired. */
  lemma ExpiredStaysExpired(inv: Invitation, now: int, later: int)
    requires IsExpired(inv, now) && now <= later
    ensures IsExpired(inv, later)
  {
  }

  /** The partial filter of the TTL index: only these documents are swept. */
  predicate TtlIndexed(inv: Invitation) {
    inv.autoDelete && inv.expiresAt.Some?
  }

  /** What every stored invitation satisfies: the required fields were present
      when it was saved, and the hook has given it an expiry. */
  predicate Saved(inv: Invitation) {
    ContentValid(inv.content) && inv.expiresAt.Some?
  }

  /** Saving a document with valid content always leaves it with an expiry, so
      it falls under the TTL index exactly when `autoDelete` is on. */
  lemma SaveSetsExpiry(inv: Invitation)
    requires ContentValid(inv.content)
    ensures Saved(WithDefaultExpiry(inv))
    ensures TtlIndexed(WithDefaultExpiry(inv)) <==> inv.autoDelete
  {
  }

  /** The slug default `uuidv4().slice(0, 8)`: the first eight characters of
      the fresh identifier, or all of it when it is shorter. */
  function DefaultSlug(uuid: string): (slug: string)
    ensures |slug| == if |uuid| < 8 then |uuid| else 8
    ensures slug == uuid[..|slug|]
  {
    if |uuid| < 8 then uuid else uuid[..8]
  }

  /** The unique index on `slug`. */
  predicate UniqueSlugs(m: map<Id, Invitation>) {
    forall a, b :: a in m && b in m && a != b ==> m[a].slug != m[b].slug
  }

  /** Some invitation other than `self` holds `slug`. */
  predicate SlugTaken(m: map<Id, Invitation>, self: Option<Id>, slug: string) {
    exists other :: other in m && Some(other) != self && m[other].slug == slug
  }

  lemma PutKeepsUniqueSlugs(m: map<Id, Invitation>, id: Id, inv: Invitation)
    requires UniqueSlugs(m)
    requires !SlugTaken(m, Some(id), inv.slug)
    ensures UniqueSlugs(m[id := inv])
  {
    var m' := m[id := inv];
    forall a, b | a in m' && b in m' && a != b
      ensures m'[a].slug != m'[b].slug
    {
      if a == id {
        assert !(b in m && Some(b) != Some(id) && m[b].slug == inv.slug);
      } else if b == id {
        assert !(a in m && Some(a) != Some(id) && m[a].slug == inv.slug);
      }
    }
  }
}
