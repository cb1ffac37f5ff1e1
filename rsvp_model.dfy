/** The RSVP schema: the response enumeration, the setters and validators on the
    record, the unique (invitation, email) index, and the per-invitation views
    the handlers query. */
module RsvpModel {
  import opened Common
  import opened Text

  datatype Response = Attending | NotAttending | Maybe | Declined | Pending

  function ResponseName(r: Response): string {
    match r
    case Attending => "attending"
    case NotAttending => "not_attending"
    case Maybe => "maybe"
    case Declined => "declined"
    case Pending => "pending"
  }

  /** The enum validator on `response`. */
  function ParseResponse(s: string): (r: Option<Response>)
    ensures r.Some? ==> ResponseName(r.value) == s
    ensures r.None? ==> forall k :: ResponseName(k) != s
  {
    match s
    case "attending" => Some(Attending)
    case "not_attending" => Some(NotAttending)
    case "maybe" => Some(Maybe)
    case "declined" => Some(Declined)
    case "pending" => Some(Pending)
    case _ => None
  }

  /** `phone` and `message` are optional paths; `createdAt` is kept as the
      ISO-8601 text the export prints. */
  datatype Rsvp = Rsvp(invitation: Id, name: string, email: string, phone: Option<string>,
                       response: Response, guests: int, message: Option<string>, createdAt: string)

  /** The `trim` and `lowercase` setters of `email`; queries on `email` are cast
      through the same setters. */
  function NormalizeEmail(s: string): string {
    Lower(Trim(s))
  }

  /** Normalising an address twice is normalising it once, so a stored address
      is found again by its own value. */
  lemma NormalizeEmailIdempotent(s: string)
    ensures NormalizeEmail(NormalizeEmail(s)) == NormalizeEmail(s)
  {
    var t := Trim(s);
    LowerKeepsTrimmed(t);
    TrimOfTrimmed(Lower(t));
    LowerIdempotent(t);
  }

  /** The shape of a normalised address: trimmed and without upper-case letters. */
  predicate Normalized(s: string) {
    Trimmed(s) && NoUpper(s)
  }

  /** An address is stored as it is given exactly when it already has the
      normalised shape; and every normalised address has that shape. */
  lemma NormalizedFixedPoints(s: string)
    ensures NormalizeEmail(s) == s <==> Normalized(s)
    ensures Normalized(NormalizeEmail(s))
  {
    var t := Trim(s);
    LowerKeepsTrimmed(t);
    LowerFixedPoints(Lower(t));
    LowerIdempotent(t);
    if Normalized(s) {
      TrimOfTrimmed(s);
      LowerFixedPoints(s);
    }
  }

  /** `response || 'attending'`: an empty response becomes "attending"; any other
      text must name one of the five responses. */
  function ResolveResponse(s: string): (r: Option<Response>)
    ensures s == "" ==> r == Some(Attending)
    ensures s != "" ==> (r.Some? <==> exists k :: ResponseName(k) == s)
    ensures s != "" && r.Some? ==> ResponseName(r.value) == s
  {
    if s == "" then Some(Attending) else ParseResponse(s)
  }

  /** `numberOfGuests || 1`: absent and 0 both become 1. */
  function ResolveGuests(g: Option<int>): (n: int)
    ensures g.None? || g == Some(0) ==> n == 1
    ensures g.Some? && g.value != 0 ==> n == g.value
  {
    if g.None? || g.value == 0 then 1 else g.value
  }

  /** What every stored RSVP satisfies: a trimmed, non-empty name, a normalised
      non-empty email, a trimmed phone, and at least one guest. */
  predicate Stored(r: Rsvp) {
    r.name != "" && Trimmed(r.name)
    && r.email != "" && Normalized(r.email)
    && (r.phone.Some? ==> Trimmed(r.phone.value))
    && r.guests >= 1
  }

  /** The unique compound index on (invitation, email). */
  predicate UniquePairs(rs: seq<Rsvp>) {
    forall i, j :: 0 <= i < j < |rs| ==>
      !(rs[i].invitation == rs[j].invitation && rs[i].email == rs[j].email)
  }

  /** `RSVP.findOne({invitation, email})`: the position of the record for the pair. */
  function Find(rs: seq<Rsvp>, invitation: Id, email: string): (k: Option<nat>)
    ensures k.Some? ==> k.value < |rs| && rs[k.value].invitation == invitation && rs[k.value].email == email
    ensures k.None? ==> forall i :: 0 <= i < |rs| ==> !(rs[i].invitation == invitation && rs[i].email == email)
  {
    if rs == [] then None
    else if rs[0].invitation == invitation && rs[0].email == email then Some(0)
    else match Find(rs[1..], invitation, email)
      case None => None
      case Some(k) => Some(k + 1)
  }

  /** Once a record for a new pair is appended, the pair is found at the end. */
  lemma {:induction false} FindAppended(rs: seq<Rsvp>, r: Rsvp)
    requires Find(rs, r.invitation, r.email).None?
    ensures Find(rs + [r], r.invitation, r.email) == Some(|rs|)
  {
    if rs != [] {
      assert (rs + [r])[1..] == rs[1..] + [r];
      FindAppended(rs[1..], r);
    }
  }

  /** Appending a record for a pair not yet present keeps the pairs unique. */
  lemma AppendKeepsUnique(rs: seq<Rsvp>, r: Rsvp)
    requires UniquePairs(rs)
    requires Find(rs, r.invitation, r.email).None?
    ensures UniquePairs(rs + [r])
  {
  }

  /** Overwriting a record with one for the same pair keeps the pairs unique. */
  lemma ReplaceKeepsUnique(rs: seq<Rsvp>, k: nat, r: Rsvp)
    requires UniquePairs(rs)
    requires k < |rs| && rs[k].invitation == r.invitation && rs[k].email == r.email
    ensures UniquePairs(rs[k := r])
  {
  }

  /** The number of records of one invitation. */
  function CountFor(rs: seq<Rsvp>, invitation: Id): nat {
    if rs == [] then 0
    else CountFor(rs[..|rs| - 1], invitation) + (if rs[|rs| - 1].invitation == invitation then 1 else 0)
  }

  /** An inserted record adds one to its own invitation's count and nothing to another's. */
  lemma CountForAppend(rs: seq<Rsvp>, r: Rsvp, invitation: Id)
    ensures CountFor(rs + [r], invitation)
            == CountFor(rs, invitation) + (if r.invitation == invitation then 1 else 0)
  {
    assert (rs + [r])[..|rs|] == rs;
  }

  /** Overwriting a record in place, for the same invitation, changes no count. */
  lemma {:induction false} CountForReplace(rs: seq<Rsvp>, k: nat, r: Rsvp, invitation: Id)
    requires k < |rs| && rs[k].invitation == r.invitation
    ensures CountFor(rs[k := r], invitation) == CountFor(rs, invitation)
  {
    var last := |rs| - 1;
    if k < last {
      assert rs[k := r][..last] == rs[..last][k := r];
      CountForReplace(rs[..last], k, r, invitation);
    } else {
      assert rs[k := r][..last] == rs[..last];
    }
  }

  /** An invitation no record refers to has count 0. */
  lemma {:induction false} CountForNone(rs: seq<Rsvp>, invitation: Id)
    requires forall i :: 0 <= i < |rs| ==> rs[i].invitation != invitation
    ensures CountFor(rs, invitation) == 0
  {
    if rs != [] {
      CountForNone(rs[..|rs| - 1], invitation);
    }
  }

  /** The positions of one invitation's records, in creation order: only
      such positions, ascending, and (`PositionsForComplete`) all of them. */
  function PositionsFor(rs: seq<Rsvp>, invitation: Id): (ks: seq<nat>)
    ensures forall i :: 0 <= i < |ks| ==> ks[i] < |rs| && rs[ks[i]].invitation == invitation
    ensures forall i, j :: 0 <= i < j < |ks| ==> ks[i] < ks[j]
  {
    if rs == [] then []
    else PositionsFor(rs[..|rs| - 1], invitation) + (if rs[|rs| - 1].invitation == invitation then [|rs| - 1] else [])
  }

  /** No record of the invitation is left out of its positions. */
  lemma {:induction false} PositionsForComplete(rs: seq<Rsvp>, invitation: Id, k: nat)
    requires k < |rs| && rs[k].invitation == invitation
    ensures k in PositionsFor(rs, invitation)
  {
    if k < |rs| - 1 {
      PositionsForComplete(rs[..|rs| - 1], invitation, k);
    }
  }

  /** The records of one invitation, newest first (the store keeps creation
      order); `NewestFirstOrder` states the order. */
  function NewestFirstFor(rs: seq<Rsvp>, invitation: Id): (r: seq<Rsvp>)
    ensures |r| == CountFor(rs, invitation)
    ensures forall x :: x in r <==> x in rs && x.invitation == invitation
  {
    if rs == [] then []
    else
      var last := rs[|rs| - 1];
      var rest := NewestFirstFor(rs[..|rs| - 1], invitation);
      assert forall x :: x in rs <==> x in rs[..|rs| - 1] || x == last by {
        assert rs == rs[..|rs| - 1] + [last];
      }
      if last.invitation == invitation then [last] + rest else rest
  }

  /** The listing is newest first: its i-th record is the record at the
      invitation's i-th position counted from the end. */
  lemma {:induction false} NewestFirstOrder(rs: seq<Rsvp>, invitation: Id)
    ensures |NewestFirstFor(rs, invitation)| == |PositionsFor(rs, invitation)|
    ensures forall i :: 0 <= i < |PositionsFor(rs, invitation)| ==>
              NewestFirstFor(rs, invitation)[i] == rs[PositionsFor(rs, invitation)[|PositionsFor(rs, invitation)| - 1 - i]]
  {
    if rs != [] {
      var pre := rs[..|rs| - 1];
      NewestFirstOrder(pre, invitation);
      var keep := rs[|rs| - 1].invitation == invitation;
      NewestFirstStep(rs, NewestFirstFor(pre, invitation), PositionsFor(pre, invitation), keep,
                      NewestFirstFor(rs, invitation), PositionsFor(rs, invitation));
    }
  }

  /** The step of `NewestFirstOrder` on plain sequences: listing the last
      record first, or not at all, keeps the listing aligned with the
      positions read from the end. */
  lemma NewestFirstStep(rs: seq<Rsvp>, rest: seq<Rsvp>, ks: seq<nat>, keep: bool, r: seq<Rsvp>, ks': seq<nat>)
    requires rs != [] && |rest| == |ks|
    requires forall i :: 0 <= i < |ks| ==> ks[i] < |rs| - 1
    requires forall i :: 0 <= i < |rest| ==> rest[i] == rs[..|rs| - 1][ks[|ks| - 1 - i]]
    requires r == (if keep then [rs[|rs| - 1]] else []) + rest
    requires ks' == ks + (if keep then [|rs| - 1] else [])
    ensures |r| == |ks'|
    ensures forall i :: 0 <= i < |ks'| ==> r[i] == rs[ks'[|ks'| - 1 - i]]
  {
  }

  /** The first record listed is the most recently created one of that invitation. */
  lemma {:induction false} NewestFirstHead(rs: seq<Rsvp>, invitation: Id, k: nat)
    requires k < |rs| && rs[k].invitation == invitation
    requires forall j :: k < j < |rs| ==> rs[j].invitation != invitation
    ensures NewestFirstFor(rs, invitation) != [] && NewestFirstFor(rs, invitation)[0] == rs[k]
  {
    if k < |rs| - 1 {
      NewestFirstHead(rs[..|rs| - 1], invitation, k);
    }
  }
}
