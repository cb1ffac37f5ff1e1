/** The pure rules inside the invitation handlers: the custom-slug sanitiser
    and the filter of the public read path. */
module InvitationRules {
  import opened Common
  import opened Text
  import opened InvitationModel

  /** The characters `/[^a-z0-9-]/g` keeps. */
  predicate IsSlugChar(c: char) {
    'a' <= c <= 'z' || '0' <= c <= '9' || c == '-'
  }

  predicate AllSlugChars(s: string) {
    forall i :: 0 <= i < |s| ==> IsSlugChar(s[i])
  }

  const MaxSlugLength: nat := 50
  const MinSlugLength: nat := 3

  /** `s.replace(/[^a-z0-9-]/g, '')`: every other character is dropped, not replaced. */
  function KeepSlugChars(s: string): (r: string)
    ensures AllSlugChars(r)
    ensures |r| <= |s|
  {
    if s == [] then []
    else (if IsSlugChar(s[0]) then [s[0]] else []) + KeepSlugChars(s[1..])
  }

  /** `slug.toLowerCase().replace(/[^a-z0-9-]/g, '').slice(0, 50)`: the
      beginning of the lower-cased, filtered input, cut at 50 characters and
      no shorter than that cut allows. */
  function SanitizeSlug(s: string): (r: string)
    ensures AllSlugChars(r)
    ensures |r| <= MaxSlugLength
    ensures r <= KeepSlugChars(Lower(s))
    ensures |r| == if |KeepSlugChars(Lower(s))| <= MaxSlugLength then |KeepSlugChars(Lower(s))| else MaxSlugLength
  {
    var kept := KeepSlugChars(Lower(s));
    if |kept| <= MaxSlugLength then kept else kept[..MaxSlugLength]
  }

  lemma {:induction false} KeepAllSlugChars(s: string)
    requires AllSlugChars(s)
    ensures KeepSlugChars(s) == s
  {
    if s != [] {
      KeepAllSlugChars(s[1..]);
      assert [s[0]] + s[1..] == s;
    }
  }

  lemma LowerOfSlugChars(s: string)
    requires AllSlugChars(s)
    ensures Lower(s) == s
  {
    assert forall i :: 0 <= i < |s| ==> LowerChar(s[i]) == s[i];
  }

  /** A string is left unchanged by the sanitiser exactly when it is already a
      valid slug body: at most 50 characters, all from `[a-z0-9-]`. */
  lemma SanitizeFixedPoints(s: string)
    ensures SanitizeSlug(s) == s <==> (|s| <= MaxSlugLength && AllSlugChars(s))
  {
    if |s| <= MaxSlugLength && AllSlugChars(s) {
      LowerOfSlugChars(s);
      KeepAllSlugChars(s);
    }
  }

  /** Sanitising twice is sanitising once. */
  lemma SanitizeIdempotent(s: string)
    ensures SanitizeSlug(SanitizeSlug(s)) == SanitizeSlug(s)
  {
    SanitizeFixedPoints(SanitizeSlug(s));
  }

  /** The filter keeps every occurrence of a slug character and drops every
      occurrence of any other character. */
  lemma {:induction false} KeepSlugCharsCounts(s: string, c: char)
    ensures CountChar(KeepSlugChars(s), c) == if IsSlugChar(c) then CountChar(s, c) else 0
  {
    if s != [] {
      KeepSlugCharsCounts(s[1..], c);
      CountCharAppend(if IsSlugChar(s[0]) then [s[0]] else [], KeepSlugChars(s[1..]), c);
    }
  }

  /** The filter works character by character, keeping their order: filtering
      a concatenation concatenates the filtered parts. */
  lemma {:induction false} KeepSlugCharsAppend(a: string, b: string)
    ensures KeepSlugChars(a + b) == KeepSlugChars(a) + KeepSlugChars(b)
  {
    if a == [] {
      assert a + b == b;
    } else {
      assert (a + b)[1..] == a[1..] + b;
      KeepSlugCharsAppend(a[1..], b);
    }
  }

  lemma {:induction false} LowerHyphens(s: string)
    ensures CountChar(Lower(s), '-') == CountChar(s, '-')
  {
    if s != [] {
      LowerHyphens(s[1..]);
      assert Lower(s)[1..] == Lower(s[1..]);
    }
  }

  lemma {:induction false} PrefixCount(s: string, n: nat, c: char)
    requires n <= |s|
    ensures CountChar(s[..n], c) <= CountChar(s, c)
  {
    assert s == s[..n] + s[n..];
    CountCharAppend(s[..n], s[n..], c);
  }

  /** The sanitiser never turns anything into a hyphen: the result holds at most
      the hyphens of the input, so spaces and punctuation simply disappear. */
  lemma SanitizeAddsNoHyphen(s: string)
    ensures CountChar(SanitizeSlug(s), '-') <= CountChar(s, '-')
  {
    var kept := KeepSlugChars(Lower(s));
    KeepSlugCharsCounts(Lower(s), '-');
    LowerHyphens(s);
    if |kept| > MaxSlugLength {
      PrefixCount(kept, MaxSlugLength, '-');
    }
  }

  /** The public read filter `{slug, $or: [{status: 'published', isPaid: true},
      {isPaid: true}]}`: the second branch subsumes the first, so only payment
      matters, not the status. */
  predicate PublicMatch(inv: Invitation, slug: string)
    ensures PublicMatch(inv, slug) <==> inv.slug == slug && inv.isPaid
  {
    inv.slug == slug && ((inv.status == Published && inv.isPaid) || inv.isPaid)
  }

  /** The delete guard: a paid invitation that is published cannot be deleted. */
  predicate DeleteAllowed(inv: Invitation) {
    !(inv.isPaid && inv.status == Published)
  }
}
