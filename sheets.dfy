/**
 * The row building of the Google Sheets export (utils/google_sheets.py, `export_to_sheet`):
 * each company becomes one row of eight cells, the first address in its own column and the
 * others joined by ", " in the next, under a fixed header row.
 *
 * A company here is the dictionary the export receives: string fields that may be missing
 * (`.get(key, '')` gives "") or hold `None`, and an address list that may be missing.
 */
module Sheets {
  import opened Wrappers
  import opened Text

  /** A company dictionary: its string fields, `None` standing for a null value, and its `emails`, if present. */
  datatype Entry = Entry(fields: map<string, Option<string>>, emails: Option<seq<string>>)

  /** A cell: a string, or `None` passed through from the dictionary. */
  type Cell = Option<string>

  const Headers: seq<Cell> := [Some("회사명"), Some("채용공고 제목"), Some("대표 이메일"), Some("추가 이메일"),
                               Some("홈페이지"), Some("채용사이트 링크"), Some("기업정보 링크"), Some("수집 출처")]

  /** The dictionary keys of the columns other than the two address columns, in column order. */
  const NameKey: string := "company_name"
  const TitleKey: string := "job_title"
  const HomepageKey: string := "homepage"
  const JobUrlKey: string := "job_url"
  const CompanyUrlKey: string := "company_url"
  const SourceKey: string := "source"

  /** Python's `company.get(key, '')`. */
  function Get(e: Entry, key: string): Cell
  {
    if key in e.fields then e.fields[key] else Some("")
  }

  /** Python's `company.get('emails', [])`. */
  function EmailsOf(e: Entry): seq<string>
  {
    e.emails.GetOr([])
  }

  function PrimaryEmail(emails: seq<string>): string
  {
    if emails != [] then emails[0] else ""
  }

  function OtherEmails(emails: seq<string>): string
  {
    if |emails| > 1 then Join(emails[1..], ListSep) else ""
  }

  /** The row of one company. */
  function RowOf(e: Entry): seq<Cell>
  {
    var emails := EmailsOf(e);
    [Get(e, NameKey), Get(e, TitleKey), Some(PrimaryEmail(emails)), Some(OtherEmails(emails)),
     Get(e, HomepageKey), Get(e, JobUrlKey), Get(e, CompanyUrlKey), Get(e, SourceKey)]
  }

  /** The success message, which counts the rows written. */
  function SuccessMessage(count: nat, title: string, sheetName: string): string
  {
    NatToDecimal(count) + "개 회사가 '" + title + " / " + sheetName + "' 에 성공적으로 저장되었습니다."
  }

  /**
   * The row building of `export_to_sheet`: the values written (header first) and the success
   * message for a document titled `title`.
   */
  method ExportValues(data: seq<Entry>, title: string, sheetName: string) returns (values: seq<seq<Cell>>, message: string)
    ensures |values| == |data| + 1 && values[0] == Headers
    ensures forall i :: 0 <= i < |data| ==> values[i + 1] == RowOf(data[i])
    ensures message == SuccessMessage(|data|, title, sheetName)
  {
    var headers := Headers;
    var rows: seq<seq<Cell>> := [];
    for i := 0 to |data|
      invariant |rows| == i
      invariant forall k :: 0 <= k < i ==> rows[k] == RowOf(data[k])
    {
      var company := data[i];
      var emails := EmailsOf(company);
      var primaryEmail := if emails != [] then emails[0] else "";
      var otherEmails := if |emails| > 1 then Join(emails[1..], ListSep) else "";
      rows := rows + [[Get(company, NameKey), Get(company, TitleKey), Some(primaryEmail), Some(otherEmails),
                       Get(company, HomepageKey), Get(company, JobUrlKey), Get(company, CompanyUrlKey),
                       Get(company, SourceKey)]];
    }
    values := [headers] + rows;
    message := SuccessMessage(|rows|, title, sheetName);
  }

  /**
   * Every row has a cell under each of the eight headers; a missing key gives "" and a key
   * holding `None` gives `None`, in the columns other than the address columns.
   */
  lemma RowColumns(e: Entry)
    ensures |RowOf(e)| == |Headers| == 8
    ensures forall key :: key in [NameKey, TitleKey, HomepageKey, JobUrlKey, CompanyUrlKey, SourceKey] ==>
              (key !in e.fields ==> Get(e, key) == Some("")) && (key in e.fields ==> Get(e, key) == e.fields[key])
    ensures RowOf(e)[0] == Get(e, NameKey) && RowOf(e)[1] == Get(e, TitleKey)
    ensures RowOf(e)[4] == Get(e, HomepageKey) && RowOf(e)[5] == Get(e, JobUrlKey)
    ensures RowOf(e)[6] == Get(e, CompanyUrlKey) && RowOf(e)[7] == Get(e, SourceKey)
  {
  }

  /** Reading the two address columns back: the first one, then the second split at ", ". */
  function RecoverEmails(primary: string, others: string): seq<string>
  {
    if primary == "" then [] else [primary] + (if others == "" then [] else SplitOn(others, ListSep))
  }

  /** Joining non-empty items gives a non-empty string. */
  lemma {:induction false} JoinNonEmpty(xs: seq<string>)
    requires |xs| >= 1 && xs[0] != ""
    ensures Join(xs, ListSep) != ""
  {
    if |xs| > 1 {
      assert Join(xs, ListSep) == xs[0] + ListSep + Join(xs[1..], ListSep);
    }
  }

  /**
   * The two address columns lose nothing when no address is empty or contains ", ": the first
   * address and the split of the second column are the original list, in order.
   */
  lemma {:induction false} AddressColumnsRoundTrip(emails: seq<string>)
    requires forall i :: 0 <= i < |emails| ==> emails[i] != "" && !Contains(emails[i], ListSep)
    ensures RecoverEmails(PrimaryEmail(emails), OtherEmails(emails)) == emails
  {
    if |emails| > 1 {
      var rest := emails[1..];
      JoinSplitRoundTrip(rest);
      JoinNonEmpty(rest);
      assert [emails[0]] + rest == emails;
    }
  }

  /**
   * The round trip for a company's row: its third and fourth cells give back its address list
   * (the empty list when the key is missing).
   */
  lemma RowEmailsRoundTrip(e: Entry)
    requires forall i :: 0 <= i < |EmailsOf(e)| ==> EmailsOf(e)[i] != "" && !Contains(EmailsOf(e)[i], ListSep)
    ensures RowOf(e)[2].Some? && RowOf(e)[3].Some?
    ensures RecoverEmails(RowOf(e)[2].value, RowOf(e)[3].value) == EmailsOf(e)
  {
    AddressColumnsRoundTrip(EmailsOf(e));
  }

  /**
   * Without the side condition the round trip fails: the lists ["x@a.kr", "y@b.kr, z@c.kr"]
   * and ["x@a.kr", "y@b.kr", "z@c.kr"] give the same two address cells.
   */
  lemma SeparatorInAddressIsLost()
    ensures PrimaryEmail(["x@a.kr", "y@b.kr, z@c.kr"]) == PrimaryEmail(["x@a.kr", "y@b.kr", "z@c.kr"])
    ensures OtherEmails(["x@a.kr", "y@b.kr, z@c.kr"]) == OtherEmails(["x@a.kr", "y@b.kr", "z@c.kr"])
  {
    assert ["x@a.kr", "y@b.kr", "z@c.kr"][1..] == ["y@b.kr", "z@c.kr"];
    assert ["x@a.kr", "y@b.kr", "z@c.kr"][1..][1..] == ["z@c.kr"];
  }
}
