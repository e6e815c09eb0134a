/**
 * The company record the three job-site adapters build and the enrichment loops fill in, with
 * the notions the loops test it by: a Python truth test on an optional string and the number of
 * addresses found.  A record is a value here; the loops that update records in place replace
 * the list entry instead.
 */
module Records {
  import opened Wrappers
  import opened Sorting

  /** An id as a JSON API returns it: a number or a string. */
  datatype JsonId = Num(n: int) | Str(s: string)

  /**
   * One company.  An optional field is `None` where the record holds Python's `None` or has no
   * such key (the Saramin records have no `job_url` key, only the Wanted records have `api_id`).
   */
  datatype Company = Company(
    companyName: string,
    companyUrl: Option<string>,
    jobUrl: Option<string>,
    jobTitle: string,
    homepage: Option<string>,
    emails: seq<string>,
    apiId: Option<JsonId>)

  /** Python's truth value of an optional string: present and non-empty. */
  predicate Truthy(o: Option<string>)
  {
    o.Some? && o.value != ""
  }

  /** The sort key `len(x.get('emails', []))` of the enrichment loops. */
  function EmailCount(c: Company): nat
  {
    |c.emails|
  }

  /** The step of the per-company enrichment at which an exception is raised. */
  datatype Stage = AtCallback | AtJobLookup | AtDetail | AtExtract

  /** One call of the progress callback: `(current, total, company_name)`. */
  datatype Progress = Progress(current: nat, total: nat, name: string)

  /** The callback calls for the first `n` of `cs`: positions counted from 1, out of `|cs|`. */
  function ProgressCalls(cs: seq<Company>, n: nat): (r: seq<Progress>)
    requires n <= |cs|
    ensures |r| == n
    ensures forall i :: 0 <= i < n ==> r[i] == Progress(i + 1, |cs|, cs[i].companyName)
  {
    seq(n, i requires 0 <= i < n => Progress(i + 1, |cs|, cs[i].companyName))
  }

  lemma ProgressCallsSnoc(cs: seq<Company>, n: nat)
    requires n < |cs|
    ensures ProgressCalls(cs, n + 1) == ProgressCalls(cs, n) + [Progress(n + 1, |cs|, cs[n].companyName)]
  {
    assert ProgressCalls(cs, n + 1)[..n] == ProgressCalls(cs, n);
  }

  /**
   * The final sort of both enrichment loops: the result is a permutation of the list, ranked
   * by the number of addresses (most first), and companies with equally many addresses keep
   * their order.
   */
  lemma RankByEmails(cs: seq<Company>)
    ensures multiset(SortDesc(cs, EmailCount)) == multiset(cs)
    ensures SortedDesc(SortDesc(cs, EmailCount), EmailCount)
    ensures forall k: nat :: WithKey(SortDesc(cs, EmailCount), EmailCount, k) == WithKey(cs, EmailCount, k)
  {
    SortDescCorrect(cs, EmailCount);
  }
}
