/**
 * `EmailExtractor` (crawlers/email_extractor.py): collect the addresses on a company homepage
 * and on up to three of its contact pages.
 */
module EmailExtractor {
  import opened Wrappers
  import opened Text
  import opened Seqs
  import opened EmailPattern
  import opened Web

  /** File extensions that betray an image or asset name caught by the pattern. */
  const InvalidExtensions: seq<string> := [".png", ".jpg", ".jpeg", ".gif", ".svg", ".webp", ".css", ".js"]

  /** Words that mark a link to a contact or company page. */
  const ContactKeywords: seq<string> := ["contact", "about", "company", "footer", "문의", "연락", "회사소개", "고객센터", "고객지원"]

  /** At most this many contact pages are visited. */
  const MaxContactPages: nat := 3

  const MailtoPrefix: string := "mailto:"

  // ---------------------------------------------------------------- validation

  /** `_is_valid_email`. */
  predicate IsValidEmail(email: string)
  {
    var l := Lower(email);
    var parts := Split(l, '@');
    !ContainsAny(l, InvalidExtensions) && !Contains(l, "example") && !Contains(l, "test@")
    && |parts| == 2 && |parts[1]| >= 4
  }

  /** Lower-casing keeps every '@'. */
  lemma {:induction false} CountAtLower(s: string)
    ensures CountChar(Lower(s), '@') == CountChar(s, '@')
    decreases |s|
  {
    if s != [] {
      CountAtLower(s[1..]);
      assert Lower(s)[1..] == Lower(s[1..]);
    }
  }

  /** A valid address holds exactly one '@', and at least four characters follow it. */
  lemma ValidEmailHasOneAt(email: string)
    requires IsValidEmail(email)
    ensures CountChar(email, '@') == 1
    ensures |Split(Lower(email), '@')[1]| >= 4
  {
    SplitCount(Lower(email), '@');
    CountAtLower(email);
  }

  /**
   * For a match of the pattern the split-and-length test always passes, so only the
   * extension and example tests can reject it.
   */
  lemma MatchValidIff(t: string, m: string)
    requires IsMatchIn(t, m)
    ensures IsValidEmail(m) <==>
              !ContainsAny(Lower(m), InvalidExtensions) && !Contains(Lower(m), "example") && !Contains(Lower(m), "test@")
  {
    var s: nat :| MatchFrom(t, s, m);
    var a, k := MatchAtShape(t, s);
    ShapedPassesSplit(m, a, k);
  }

  /** A string of the pattern's language passes the split-and-length test. */
  lemma ShapedPassesSplit(m: string, a: nat, k: nat)
    requires ShapedAt(m, a, k)
    ensures |Split(Lower(m), '@')| == 2 && |Split(Lower(m), '@')[1]| >= 4
  {
    ShapedLower(m, a, k);
    ShapedSplit(Lower(m), a, k);
  }

  /** Five characters after the '@' are enough. */
  lemma ValidEmailExample()
    ensures IsValidEmail("a@bc.co")
  {
    var s := "a@bc.co";
    assert Lower(s) == s;
    ExampleHasNoExtension();
    NotContains(s, "example");
    NotContains(s, "test@");
    ExampleSplit();
  }

  lemma ExampleSplit()
    ensures Split("a@bc.co", '@') == ["a", "bc.co"]
  {
    SplitAfterFirst("a", "bc.co", '@');
    SplitNoSeparator("bc.co", '@');
    assert "a" + ['@'] + "bc.co" == "a@bc.co";
  }

  lemma ExampleHasNoExtension()
    ensures !ContainsAny("a@bc.co", InvalidExtensions)
  {
    var s := "a@bc.co";
    forall i | 0 <= i < |InvalidExtensions| ensures !Contains(s, InvalidExtensions[i]) {
      var p := InvalidExtensions[i];
      assert |p| >= 3 && p[0] == '.' && (|p| > 3 || p[1] != 'c');
      NotContainsDotWord(s, p);
    }
  }

  /** Three characters after the '@' are too few. */
  lemma ShortDomainExample()
    ensures !IsValidEmail("a@b.c")
  {
    assert Lower("a@b.c") == "a@b.c";
    SplitAfterFirst("a", "b.c", '@');
    SplitNoSeparator("b.c", '@');
    assert "a" + ['@'] + "b.c" == "a@b.c";
  }

  /** Placeholder addresses are refused. */
  lemma ExampleDomainExample()
    ensures !IsValidEmail("user@example.com")
  {
    assert Lower("user@example.com") == "user@example.com";
    ContainsAt("user@example.com", "example", 5);
  }

  /** A string without p's first character does not contain `p`. */
  lemma {:induction false} NotContains(s: string, p: string)
    requires p != [] && p[0] !in s
    ensures !Contains(s, p)
    decreases |s|
  {
    if s != [] { NotContains(s[1..], p); }
  }

  /** In "a@bc.co" the only '.' starts ".co", so no other string beginning with '.' occurs in it. */
  lemma NotContainsDotWord(s: string, p: string)
    requires s == "a@bc.co" && |p| >= 3 && p[0] == '.' && (|p| > 3 || p[1] != 'c')
    ensures !Contains(s, p)
  {
    forall i: nat | i + |p| <= |s| ensures !OccursAt(s, p, i) {
      if i == 4 {
        assert s[4..7][1] == 'c';
      } else {
        assert s[i..i + |p|][0] == s[i] != '.';
      }
    }
    NoOccurrence(s, p);
  }

  // ---------------------------------------------------------------- text and mailto links

  /** `_extract_emails`: the matches in the text that pass the validator. */
  function ExtractEmails(text: string): (r: set<string>)
  {
    if text == "" then {} else set m | m in FindAll(text, 0) && IsValidEmail(m)
  }

  /** Every extracted address is valid and, searched again on its own, yields exactly itself. */
  lemma ExtractEmailsIdempotent(text: string)
    ensures forall e :: e in ExtractEmails(text) ==> IsValidEmail(e) && ExtractEmails(e) == {e}
  {
    FindAllMatches(text, 0);
    forall e | e in ExtractEmails(text) ensures ExtractEmails(e) == {e} {
      var i :| 0 <= i < |FindAll(text, 0)| && FindAll(text, 0)[i] == e;
      FindAllOfMatch(text, e);
    }
  }

  /** `href.replace('mailto:', '').split('?')[0].strip()`. */
  function MailtoCandidate(href: string): string
  {
    Strip(Split(RemoveAll(href, MailtoPrefix), '?')[0])
  }

  /** The candidate carries no query and no surrounding whitespace. */
  lemma MailtoCandidateClean(href: string)
    ensures '?' !in MailtoCandidate(href)
    ensures MailtoCandidate(href) == [] || !IsPyWhitespace(MailtoCandidate(href)[0])
  {
    var part := Split(RemoveAll(href, MailtoPrefix), '?')[0];
    SplitCount(RemoveAll(href, MailtoPrefix), '?');
    var i, j := StripPiece(part);
    var r := MailtoCandidate(href);
    forall k | 0 <= k < |r| ensures r[k] != '?' {
      assert r[k] == part[i + k];
    }
  }

  lemma MailtoCandidateExample()
    ensures MailtoCandidate("mailto:hr@corp.kr?subject=hi") == "hr@corp.kr"
  {
    MailtoExampleRemove();
    MailtoExampleSplit();
    MailtoExampleStrip();
  }

  lemma MailtoExampleRemove()
    ensures RemoveAll("mailto:hr@corp.kr?subject=hi", MailtoPrefix) == "hr@corp.kr?subject=hi"
  {
    assert "mailto:hr@corp.kr?subject=hi" == MailtoPrefix + "hr@corp.kr?subject=hi";
    RemoveAllLeading(MailtoPrefix, "hr@corp.kr?subject=hi");
  }

  lemma MailtoExampleSplit()
    ensures Split("hr@corp.kr?subject=hi", '?')[0] == "hr@corp.kr"
  {
    assert "hr@corp.kr?subject=hi" == "hr@corp.kr" + ['?'] + "subject=hi";
    SplitAfterFirst("hr@corp.kr", "subject=hi", '?');
  }

  lemma MailtoExampleStrip()
    ensures Strip("hr@corp.kr") == "hr@corp.kr"
  {
    assert TrimLeft("hr@corp.kr") == "hr@corp.kr";
    assert TrimRight("hr@corp.kr") == "hr@corp.kr";
  }

  /** A prefix whose first character does not occur in the rest is removed once, and only there. */
  lemma RemoveAllLeading(p: string, s: string)
    requires p != [] && p[0] !in s
    ensures RemoveAll(p + s, p) == s
  {
    assert StartsWith(p + s, p);
    assert (p + s)[|p|..] == s;
    RemoveAllAbsent(s, p);
  }

  lemma {:induction false} RemoveAllAbsent(s: string, p: string)
    requires p != [] && p[0] !in s
    ensures RemoveAll(s, p) == s
    decreases |s|
  {
    if s != [] {
      RemoveAllAbsent(s[1..], p);
      assert [s[0]] + s[1..] == s;
    }
  }

  predicate IsMailto(a: Anchor) { StartsWith(a.href, MailtoPrefix) }

  /** The valid addresses of the `mailto:` anchors among `anchors`. */
  function MailtoEmails(anchors: seq<Anchor>): set<string>
  {
    PresentSet(anchors, MailtoOf)
  }

  /** The address one anchor contributes: the candidate of a `mailto:` link, when it is valid. */
  function MailtoOf(a: Anchor): Option<string>
  {
    if IsMailto(a) && IsValidEmail(MailtoCandidate(a.href)) then Some(MailtoCandidate(a.href)) else None
  }

  /** `_extract_from_page` on a fetched page. */
  function PageEmails(page: Page): set<string>
  {
    ExtractEmails(page.html) + MailtoEmails(page.anchors)
  }

  /** `_extract_from_page` on a URL: an error while fetching yields no address. */
  function FetchedEmails(fetch: string -> Option<Page>, url: string): set<string>
  {
    match fetch(url)
    case None => {}
    case Some(p) => PageEmails(p)
  }

  /** Every address from the mailto anchors passed the validator. */
  lemma MailtoEmailsValid(anchors: seq<Anchor>)
    ensures forall e :: e in MailtoEmails(anchors) ==> IsValidEmail(e)
  {
    PresentSetMembers(anchors, MailtoOf);
  }

  /** Anchor `a` is a `mailto:` link whose candidate `e` passes the validator. */
  predicate Yields(a: Anchor, e: string)
  {
    IsMailto(a) && IsValidEmail(MailtoCandidate(a.href)) && e == MailtoCandidate(a.href)
  }

  /** The mailto addresses are exactly the valid candidates of the mailto anchors. */
  lemma MailtoEmailsFrom(anchors: seq<Anchor>)
    ensures forall e :: e in MailtoEmails(anchors) <==> exists i :: 0 <= i < |anchors| && Yields(anchors[i], e)
  {
    PresentSetMembers(anchors, MailtoOf);
  }

  /** Every address a page yields passed the validator. */
  lemma PageEmailsValid(page: Page)
    ensures forall e :: e in PageEmails(page) ==> IsValidEmail(e)
  {
    ExtractEmailsIdempotent(page.html);
    MailtoEmailsValid(page.anchors);
  }

  /** `_extract_from_page`. */
  method ExtractFromPage(fetch: string -> Option<Page>, url: string) returns (emails: set<string>)
    ensures emails == FetchedEmails(fetch, url)
    ensures forall e :: e in emails ==> IsValidEmail(e)
  {
    var response := fetch(url);
    if response.None? {
      return {};
    }
    var page := response.value;
    emails := ExtractEmails(page.html);
    var i := 0;
    while i < |page.anchors|
      invariant 0 <= i <= |page.anchors|
      invariant emails == ExtractEmails(page.html) + MailtoEmails(page.anchors[..i])
    {
      var link := page.anchors[i];
      MailtoEmailsSnoc(page.anchors, i);
      if StartsWith(link.href, MailtoPrefix) {
        var email := MailtoCandidate(link.href);
        if IsValidEmail(email) {
          emails := emails + {email};
        }
      }
      i := i + 1;
    }
    assert page.anchors[..i] == page.anchors;
    PageEmailsValid(page);
  }

  lemma MailtoEmailsSnoc(anchors: seq<Anchor>, i: nat)
    requires i < |anchors|
    ensures MailtoEmails(anchors[..i + 1])
            == MailtoEmails(anchors[..i])
               + (if IsMailto(anchors[i]) && IsValidEmail(MailtoCandidate(anchors[i].href))
                  then {MailtoCandidate(anchors[i].href)} else {})
  {
    PresentSetSnoc(anchors, i, MailtoOf);
  }

  // ---------------------------------------------------------------- contact pages

  /** The link text or the lower-cased href mentions one of the contact keywords. */
  predicate IsContactLink(a: Anchor)
  {
    ContainsAny(Lower(a.text), ContactKeywords) || ContainsAny(Lower(a.href), ContactKeywords)
  }

  /** The resolved URLs of the contact links that stay on the base URL's host, in anchor order. */
  function ContactCandidates(anchors: seq<Anchor>, ops: UrlOps, base: string): seq<string>
    decreases |anchors|
  {
    if anchors == [] then []
    else
      var a := anchors[|anchors| - 1];
      var full := ops.resolve(base, a.href);
      ContactCandidates(anchors[..|anchors| - 1], ops, base)
        + (if IsContactLink(a) && ops.netloc(full) == ops.netloc(base) then [full] else [])
  }

  /** `_find_contact_pages` on a fetched base page: the candidates without repeats. */
  function ContactPages(fetch: string -> Option<Page>, ops: UrlOps, base: string): seq<string>
  {
    match fetch(base)
    case None => []
    case Some(p) => FirstByKey(ContactCandidates(p.anchors, ops, base), Always, Id)
  }

  /** Anchor `a` is a contact link that resolves, against `base`, to `u` on the base URL's host. */
  predicate LeadsTo(a: Anchor, ops: UrlOps, base: string, u: string)
  {
    IsContactLink(a) && u == ops.resolve(base, a.href) && ops.netloc(u) == ops.netloc(base)
  }

  lemma {:induction false} ContactCandidatesFrom(anchors: seq<Anchor>, ops: UrlOps, base: string)
    ensures forall u :: u in ContactCandidates(anchors, ops, base) <==>
              exists i :: 0 <= i < |anchors| && LeadsTo(anchors[i], ops, base, u)
    decreases |anchors|
  {
    if anchors != [] {
      var n := |anchors| - 1;
      var p := anchors[..n];
      ContactCandidatesFrom(p, ops, base);
      assert ContactCandidates(anchors, ops, base)
             == ContactCandidates(p, ops, base) + (if LeadsTo(anchors[n], ops, base, ops.resolve(base, anchors[n].href))
                                                  then [ops.resolve(base, anchors[n].href)] else []);
      forall u ensures u in ContactCandidates(anchors, ops, base) <==>
                       exists i :: 0 <= i < |anchors| && LeadsTo(anchors[i], ops, base, u)
      {
        if u in ContactCandidates(p, ops, base) {
          var i :| 0 <= i < |p| && LeadsTo(p[i], ops, base, u);
          assert anchors[i] == p[i];
        }
        if exists i :: 0 <= i < |anchors| && LeadsTo(anchors[i], ops, base, u) {
          var i :| 0 <= i < |anchors| && LeadsTo(anchors[i], ops, base, u);
          if i < n { assert anchors[i] == p[i]; }
        }
      }
    }
  }

  /**
   * The contact pages are pairwise distinct, and a URL is among them exactly when some contact
   * link of the base page resolves to it and it has the base URL's host.
   */
  lemma ContactPagesCharacterized(fetch: string -> Option<Page>, ops: UrlOps, base: string)
    ensures NoDup(ContactPages(fetch, ops, base))
    ensures fetch(base).None? ==> ContactPages(fetch, ops, base) == []
    ensures fetch(base).Some? ==>
              forall u :: u in ContactPages(fetch, ops, base) <==>
                exists i :: 0 <= i < |fetch(base).value.anchors| && LeadsTo(fetch(base).value.anchors[i], ops, base, u)
  {
    if fetch(base).Some? {
      var c := ContactCandidates(fetch(base).value.anchors, ops, base);
      DedupNoDup(c);
      ContactCandidatesFrom(fetch(base).value.anchors, ops, base);
      FirstByKeyKeys(c, Always, Id);
      FirstByKeyMembers(c, Always, Id);
      KeySetId(FirstByKey(c, Always, Id));
      forall u | u in c ensures u in FirstByKey(c, Always, Id) {
        var j :| 0 <= j < |c| && c[j] == u;
        assert Id(c[j]) in KeySet(FirstByKey(c, Always, Id), Id);
      }
    }
  }

  /** `_find_contact_pages`. */
  method FindContactPages(fetch: string -> Option<Page>, ops: UrlOps, base: string) returns (urls: seq<string>)
    ensures urls == ContactPages(fetch, ops, base)
  {
    var response := fetch(base);
    if response.None? {
      return [];
    }
    var anchors := response.value.anchors;
    urls := [];
    var i := 0;
    while i < |anchors|
      invariant 0 <= i <= |anchors|
      invariant urls == FirstByKey(ContactCandidates(anchors[..i], ops, base), Always, Id)
    {
      var link := anchors[i];
      ghost var c := ContactCandidates(anchors[..i], ops, base);
      ContactCandidatesSnoc(anchors, i, ops, base);
      var full := ops.resolve(base, link.href);
      if IsContactLink(link) && ops.netloc(full) == ops.netloc(base) {
        DedupSnoc(c, full);
        if full !in urls {
          urls := urls + [full];
        }
      } else {
        assert ContactCandidates(anchors[..i + 1], ops, base) == c + [] == c;
      }
      i := i + 1;
    }
    assert anchors[..i] == anchors;
  }

  lemma ContactCandidatesSnoc(anchors: seq<Anchor>, i: nat, ops: UrlOps, base: string)
    requires i < |anchors|
    ensures ContactCandidates(anchors[..i + 1], ops, base)
            == ContactCandidates(anchors[..i], ops, base)
               + (if IsContactLink(anchors[i]) && ops.netloc(ops.resolve(base, anchors[i].href)) == ops.netloc(base)
                  then [ops.resolve(base, anchors[i].href)] else [])
  {
    assert anchors[..i + 1][..i] == anchors[..i];
  }

  // ---------------------------------------------------------------- a whole site

  /** Adds `https://` unless the URL already names the http or https scheme. */
  function NormalizeUrl(url: string): (r: string)
    ensures StartsWith(r, "http://") || StartsWith(r, "https://")
    ensures StartsWith(url, "http://") || StartsWith(url, "https://") ==> r == url
  {
    if StartsWith(url, "http://") || StartsWith(url, "https://") then url else "https://" + url
  }

  lemma NormalizeUrlIdempotent(url: string)
    ensures NormalizeUrl(NormalizeUrl(url)) == NormalizeUrl(url)
  {
  }

  /** The first `MaxContactPages` contact pages, as `contact_urls[:3]` takes them. */
  function VisitedContacts(contacts: seq<string>): (r: seq<string>)
    ensures |r| <= MaxContactPages && |r| <= |contacts| && r == contacts[..|r|]
    ensures |contacts| >= MaxContactPages ==> |r| == MaxContactPages
    ensures |contacts| < MaxContactPages ==> r == contacts
  {
    if |contacts| <= MaxContactPages then contacts else contacts[..MaxContactPages]
  }

  /** The union of the addresses of the pages at `urls`. */
  function UnionEmails(fetch: string -> Option<Page>, urls: seq<string>): set<string>
    decreases |urls|
  {
    if urls == [] then {} else UnionEmails(fetch, urls[..|urls| - 1]) + FetchedEmails(fetch, urls[|urls| - 1])
  }

  /** `extract_from_url` as a set: the homepage's addresses and those of the first contact pages. */
  function SiteEmails(fetch: string -> Option<Page>, ops: UrlOps, url: string): set<string>
  {
    if url == "" then {}
    else
      var u := NormalizeUrl(url);
      FetchedEmails(fetch, u) + UnionEmails(fetch, VisitedContacts(ContactPages(fetch, ops, u)))
  }

  lemma UnionEmailsSnoc(fetch: string -> Option<Page>, urls: seq<string>, i: nat)
    requires i < |urls|
    ensures UnionEmails(fetch, urls[..i + 1]) == UnionEmails(fetch, urls[..i]) + FetchedEmails(fetch, urls[i])
  {
    assert urls[..i + 1][..i] == urls[..i];
  }

  lemma {:induction false} UnionEmailsValid(fetch: string -> Option<Page>, urls: seq<string>)
    ensures forall e :: e in UnionEmails(fetch, urls) ==> IsValidEmail(e)
    decreases |urls|
  {
    if urls != [] {
      UnionEmailsValid(fetch, urls[..|urls| - 1]);
      var last := urls[|urls| - 1];
      if fetch(last).Some? { PageEmailsValid(fetch(last).value); }
    }
  }

  /** Every address collected from a site passed the validator. */
  lemma SiteEmailsValid(fetch: string -> Option<Page>, ops: UrlOps, url: string)
    ensures forall e :: e in SiteEmails(fetch, ops, url) ==> IsValidEmail(e)
  {
    if url != "" {
      var u := NormalizeUrl(url);
      if fetch(u).Some? { PageEmailsValid(fetch(u).value); }
      UnionEmailsValid(fetch, VisitedContacts(ContactPages(fetch, ops, u)));
    }
  }

  /** `list(s)`: the members of a set in some order, each once. */
  method SetToSeq<T(==)>(s: set<T>) returns (r: seq<T>)
    ensures ToSet(r) == s && NoDup(r) && |r| == |s|
  {
    r := [];
    var rest := s;
    while rest != {}
      invariant ToSet(r) + rest == s && ToSet(r) !! rest
      invariant NoDup(r) && |r| + |rest| == |s|
      decreases |rest|
    {
      var x :| x in rest;
      AppendFresh(r, x);
      r := r + [x];
      rest := rest - {x};
    }
  }

  /**
   * `extract_from_url`.  Besides the addresses it returns the URLs it requested, in order: the
   * homepage twice (once for its addresses, once to look for contact links), then the contact
   * pages it visits.
   */
  method ExtractFromUrl(fetch: string -> Option<Page>, ops: UrlOps, url: string)
    returns (emails: seq<string>, requested: seq<string>)
    ensures ToSet(emails) == SiteEmails(fetch, ops, url) && NoDup(emails)
    ensures url == "" ==> emails == [] && requested == []
    ensures url != "" ==>
              requested == [NormalizeUrl(url), NormalizeUrl(url)]
                           + VisitedContacts(ContactPages(fetch, ops, NormalizeUrl(url)))
  {
    if url == "" {
      return [], [];
    }
    var u := NormalizeUrl(url);
    var found := ExtractFromPage(fetch, u);
    var contactUrls := FindContactPages(fetch, ops, u);
    var contactEmails, visited := VisitPages(fetch, VisitedContacts(contactUrls));
    found := found + contactEmails;
    requested := [u, u] + visited;
    emails := SetToSeq(found);
  }

  /** The loop over `contact_urls[:3]`: the union of the pages' addresses, and the URLs requested. */
  method VisitPages(fetch: string -> Option<Page>, urls: seq<string>) returns (found: set<string>, requested: seq<string>)
    ensures found == UnionEmails(fetch, urls)
    ensures requested == urls
  {
    found := {};
    requested := [];
    var i := 0;
    while i < |urls|
      invariant 0 <= i <= |urls|
      invariant found == UnionEmails(fetch, urls[..i])
      invariant requested == urls[..i]
    {
      var pageEmails := ExtractFromPage(fetch, urls[i]);
      UnionEmailsSnoc(fetch, urls, i);
      found := found + pageEmails;
      PrefixSnoc(urls, i);
      requested := requested + [urls[i]];
      i := i + 1;
    }
    assert urls[..i] == urls;
  }
}
