/**
 * `BaseCrawler.extract_emails` (crawlers/base.py): the addresses in a text, in order of first
 * appearance, each kept once regardless of case and with the casing it first appeared in.
 */
module BaseCrawler {
  import opened Text
  import opened Seqs
  import opened EmailPattern

  /** The extensions this filter refuses; a shorter list than the email extractor's. */
  const SkipExtensions: seq<string> := [".png", ".jpg", ".gif", ".svg", ".webp"]

  /** A match survives the filters of the loop body (everything but the `seen` test). */
  predicate Keep(email: string)
  {
    var lower := Lower(email);
    !ContainsAny(lower, SkipExtensions) && !StartsWith(lower, "example@") && !EndsWith(lower, "@example.com")
  }

  /** The result of `extract_emails`, as the loop over the matches builds it. */
  function ExtractedEmails(text: string): seq<string>
  {
    if text == "" then [] else FirstByKey(FindAll(text, 0), Keep, Lower)
  }

  /** `extract_emails`. */
  method ExtractEmails(text: string) returns (validEmails: seq<string>)
    ensures validEmails == ExtractedEmails(text)
  {
    if text == "" {
      return [];
    }
    var emails := FindAll(text, 0);
    validEmails := [];
    var seen: set<string> := {};
    for i := 0 to |emails|
      invariant validEmails == FirstByKey(emails[..i], Keep, Lower)
      invariant seen == KeySet(validEmails, Lower)
    {
      var email := emails[i];
      var emailLower := Lower(email);
      assert emails[..i + 1] == emails[..i] + [email];
      FirstByKeySnoc(emails[..i], email, Keep, Lower);
      if emailLower in seen {
        continue;
      }
      if ContainsAny(emailLower, SkipExtensions) {
        continue;
      }
      if StartsWith(emailLower, "example@") || EndsWith(emailLower, "@example.com") {
        continue;
      }
      KeySetAppend(validEmails, email, Lower);
      seen := seen + {emailLower};
      validEmails := validEmails + [email];
    }
    assert emails[..|emails|] == emails;
  }

  /**
   * The result is a subsequence of the matches, in their order; each item is the first match
   * with its lower-cased form that passes the filters, so it keeps the casing first seen; and
   * every match that passes the filters is represented, regardless of case.
   */
  lemma ExtractedEmailsFirstSeen(text: string) returns (idx: seq<nat>)
    requires text != ""
    ensures |idx| == |ExtractedEmails(text)| && IncreasingIndices(idx, FindAll(text, 0))
    ensures forall k :: 0 <= k < |idx| ==>
              ExtractedEmails(text)[k] == FindAll(text, 0)[idx[k]] && IsFirstOk(FindAll(text, 0), Keep, Lower, idx[k])
    ensures forall j :: 0 <= j < |FindAll(text, 0)| && Keep(FindAll(text, 0)[j]) ==>
              Lower(FindAll(text, 0)[j]) in KeySet(ExtractedEmails(text), Lower)
  {
    idx := FirstByKeyPositions(FindAll(text, 0), Keep, Lower);
    FirstByKeyKeys(FindAll(text, 0), Keep, Lower);
  }

  /** No two results are equal after lower-casing, and there are no more results than matches. */
  lemma ExtractedEmailsDistinct(text: string)
    ensures forall i, j :: 0 <= i < j < |ExtractedEmails(text)| ==>
              Lower(ExtractedEmails(text)[i]) != Lower(ExtractedEmails(text)[j])
    ensures |ExtractedEmails(text)| <= |FindAll(text, 0)|
  {
    FirstByKeyDistinctKeys(FindAll(text, 0), Keep, Lower);
    FirstByKeyLength(FindAll(text, 0), Keep, Lower);
  }

  /**
   * No result's lower-cased form contains one of the five extensions, starts with "example@"
   * or ends with "@example.com"; and each result is a string of the email pattern.
   */
  lemma ExtractedEmailsFiltered(text: string)
    ensures forall i :: 0 <= i < |ExtractedEmails(text)| ==>
              !ContainsAny(Lower(ExtractedEmails(text)[i]), SkipExtensions)
              && !StartsWith(Lower(ExtractedEmails(text)[i]), "example@")
              && !EndsWith(Lower(ExtractedEmails(text)[i]), "@example.com")
              && EmailShaped(ExtractedEmails(text)[i])
  {
    if text != "" {
      var r := ExtractedEmails(text);
      FirstByKeyKeys(FindAll(text, 0), Keep, Lower);
      FirstByKeyMembers(FindAll(text, 0), Keep, Lower);
      FindAllShaped(text);
      forall i | 0 <= i < |r| ensures Keep(r[i]) && EmailShaped(r[i]) {
        var j :| 0 <= j < |FindAll(text, 0)| && FindAll(text, 0)[j] == r[i];
      }
    }
  }
}
