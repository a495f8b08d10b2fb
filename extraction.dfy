/**
 * Record extraction for one business detail page (scrape_and_save, the body of
 * its `try`). The HTML parser and its selectors are abstracted away: a `Page`
 * holds what each selector found, already stripped of surrounding whitespace,
 * and the functions here apply the fixed rules and fallbacks on top of that.
 */
module Extraction {
  import opened Wrappers
  import opened OrderedDict

  const NA := "N/A"
  /** The site's origin, prefixed to the path-only "Next On List" link. */
  const Origin := "https://search.sunbiz.org"

  /** A `label` inside the filing container, with the text of its next `span` sibling, if it has one. */
  datatype LabelNode = LabelNode(key: string, value: Option<string>)

  /**
   * The "Principal Address" lookup: no span whose text contains the phrase; a
   * span with no following `span` sibling; or that sibling, with the text
   * fragments of its first nested `div` when there is one.
   */
  datatype PrincipalLookup = NoPrincipalSpan | NoValueSpan | ValueSpan(block: Option<seq<string>>)

  /** What the selectors found on one page. */
  datatype Page = Page(
    nameText: Option<string>,               // `div.corporationName p:nth-of-type(2)`
    filingLabels: Option<seq<LabelNode>>,   // labels of `div.filingInformation > span > div`, None without it
    principal: PrincipalLookup,
    ownersBlock: Option<seq<string>>,       // fragments of the first div in the "Owners" detail section
    reportRows: Option<seq<seq<string>>>,   // cell texts per `tr` of the table after "Annual Reports"
    nextHref: Option<string>)               // `href` of the link titled "Next On List"

  datatype Report = Report(year: string, filedDate: string)

  datatype Record = Record(
    name: string,
    filingInfo: Dict,
    status: string,
    address: string,
    reports: seq<Report>,
    nextUrl: Option<string>)

  /** The exception raised when the "Principal Address" span has no `span` sibling. */
  datatype Crash = AttributeError

  // ---------------------------------------------------------------- name

  function Name(p: Page): string {
    p.nameText.GetOr(NA)
  }

  // ---------------------------------------------------------------- filing information

  /** `filing_info` after the loop over the given labels: each label with a value is assigned into the dict. */
  function FilingInfo(labels: seq<LabelNode>): Dict {
    if labels == [] then []
    else
      var d := FilingInfo(labels[..|labels| - 1]);
      var last := labels[|labels| - 1];
      if last.value.Some? then Put(d, last.key, last.value.value) else d
  }

  function FilingInfoOf(p: Page): Dict {
    match p.filingLabels
    case None => []
    case Some(labels) => FilingInfo(labels)
  }

  /** The keys of the labels that have a value, in document order. */
  function ValuedKeys(labels: seq<LabelNode>): seq<string> {
    if labels == [] then []
    else
      var last := labels[|labels| - 1];
      ValuedKeys(labels[..|labels| - 1]) + (if last.value.Some? then [last.key] else [])
  }

  /** The distinct elements of `ks`, each at the place of its first occurrence. */
  function FirstOccurrences(ks: seq<string>): seq<string> {
    if ks == [] then []
    else
      var prior := FirstOccurrences(ks[..|ks| - 1]);
      if ks[|ks| - 1] in prior then prior else prior + [ks[|ks| - 1]]
  }

  /** The value of the last label with key `k` that has a value. */
  function LastValue(labels: seq<LabelNode>, k: string): Option<string> {
    if labels == [] then None
    else
      var last := labels[|labels| - 1];
      if last.key == k && last.value.Some? then last.value else LastValue(labels[..|labels| - 1], k)
  }

  /** `filing_info.get("Status", "N/A")`. */
  function Status(info: Dict): string {
    Lookup(info, "Status").GetOr(NA)
  }

  // ---------------------------------------------------------------- address

  /** `' '.join(fragments)`. */
  function Join(fragments: seq<string>): string {
    if fragments == [] then ""
    else if |fragments| == 1 then fragments[0]
    else fragments[0] + " " + Join(fragments[1..])
  }

  /** The address after the first stage: the joined principal-address block, else "N/A". */
  function PrincipalStage(p: Page): string {
    match p.principal
    case ValueSpan(Some(fragments)) => Join(fragments)
    case _ => NA
  }

  /** The second stage: the joined first block of the "Owners" section, else "N/A". */
  function OwnersStage(p: Page): string {
    match p.ownersBlock
    case Some(fragments) => Join(fragments)
    case None => NA
  }

  /** The principal address, or the crash of `find_next_sibling("span").div` on a missing sibling. */
  function Address(p: Page): Result<string, Crash> {
    if p.principal.NoValueSpan? then Failure(AttributeError)
    else
      var stage1 := PrincipalStage(p);
      Success(if stage1 == NA then OwnersStage(p) else stage1)
  }

  // ---------------------------------------------------------------- annual reports

  /** The reports kept from the body rows of the table: two-cell rows only, in order. */
  function TwoCellReports(rows: seq<seq<string>>): seq<Report> {
    if rows == [] then []
    else
      var last := rows[|rows| - 1];
      TwoCellReports(rows[..|rows| - 1]) + (if |last| == 2 then [Report(last[0], last[1])] else [])
  }

  /** `annual_reports`: the first (header) row is dropped before filtering. */
  function AnnualReports(table: Option<seq<seq<string>>>): seq<Report> {
    match table
    case None => []
    case Some(rows) => if rows == [] then [] else TwoCellReports(rows[1..])
  }

  // ---------------------------------------------------------------- next link

  /** The next URL: the fixed origin followed by the link's path; none without a link. */
  function NextUrl(href: Option<string>): Option<string> {
    match href
    case None => None
    case Some(h) => Some(Origin + h)
  }

  /** A link gives a URL that starts with the origin and from which the link can be split off again. */
  lemma NextUrlShape(href: Option<string>)
    ensures NextUrl(href).Some? <==> href.Some?
    ensures NextUrl(href).Some? ==> |NextUrl(href).value| == |Origin| + |href.value|
    ensures NextUrl(href).Some? ==>
      NextUrl(href).value[..|Origin|] == Origin && NextUrl(href).value[|Origin|..] == href.value
  {
    if href.Some? {
      assert (Origin + href.value)[..|Origin|] == Origin;
      assert (Origin + href.value)[|Origin|..] == href.value;
    }
  }

  // ---------------------------------------------------------------- the whole page

  function Extract(p: Page): Result<Record, Crash> {
    var info := FilingInfoOf(p);
    match Address(p)
    case Failure(e) => Failure(e)
    case Success(address) =>
      Success(Record(Name(p), info, Status(info), address, AnnualReports(p.reportRows), NextUrl(p.nextHref)))
  }

  // ---------------------------------------------------------------- the loops of the source

  /** The `for label in labels` loop filling `filing_info`. */
  method BuildFilingInfo(labels: Option<seq<LabelNode>>) returns (info: Dict)
    ensures info == (if labels.Some? then FilingInfo(labels.value) else [])
  {
    info := [];
    if labels.Some? {
      var ls := labels.value;
      for i := 0 to |ls|
        invariant info == FilingInfo(ls[..i])
      {
        assert ls[..i + 1][..i] == ls[..i];
        var node := ls[i];
        if node.value.Some? {
          info := Put(info, node.key, node.value.value);
        }
      }
      assert ls[..|ls|] == ls;
    }
  }

  /** The `for row in reports_table.find_all("tr")[1:]` loop filling `annual_reports`. */
  method CollectAnnualReports(table: Option<seq<seq<string>>>) returns (reports: seq<Report>)
    ensures reports == AnnualReports(table)
  {
    reports := [];
    if table.Some? && table.value != [] {
      var body := table.value[1..];
      for i := 0 to |body|
        invariant reports == TwoCellReports(body[..i])
      {
        assert body[..i + 1][..i] == body[..i];
        var cols := body[i];
        if |cols| == 2 {
          reports := reports + [Report(cols[0], cols[1])];
        }
      }
      assert body[..|body|] == body;
    }
  }

  /** Extraction of one page, as the loop body runs it. */
  method ParsePage(p: Page) returns (r: Result<Record, Crash>)
    ensures r == Extract(p)
  {
    var name := if p.nameText.Some? then p.nameText.value else NA;
    var info := BuildFilingInfo(p.filingLabels);
    var status := Status(info);
    var address := NA;
    match p.principal {
      case NoPrincipalSpan =>
      case NoValueSpan =>
        return Failure(AttributeError);
      case ValueSpan(block) =>
        if block.Some? {
          address := Join(block.value);
        }
    }
    if address == NA && p.ownersBlock.Some? {
      address := Join(p.ownersBlock.value);
    }
    var reports := CollectAnnualReports(p.reportRows);
    var next := None;
    if p.nextHref.Some? {
      next := Some(Origin + p.nextHref.value);
    }
    r := Success(Record(name, info, status, address, reports, next));
  }

  // ---------------------------------------------------------------- properties

  /**
   * The keys of `filing_info` are the keys of the labels that have a value,
   * each once, at its first position.
   */
  lemma {:induction false} FilingInfoKeys(labels: seq<LabelNode>)
    ensures Keys(FilingInfo(labels)) == FirstOccurrences(ValuedKeys(labels))
  {
    if labels != [] {
      var prefix := labels[..|labels| - 1];
      FilingInfoKeys(prefix);
      var last := labels[|labels| - 1];
      if last.value.Some? {
        FilingInfoValid(prefix);
        PutSemantics(FilingInfo(prefix), last.key, last.value.value);
        var vk := ValuedKeys(labels);
        assert vk == ValuedKeys(prefix) + [last.key];
        assert vk[..|vk| - 1] == ValuedKeys(prefix);
      } else {
        assert ValuedKeys(prefix) + [] == ValuedKeys(prefix);
      }
    }
  }

  /** Each key of `filing_info` maps to the last value any label gave it. */
  lemma {:induction false} FilingInfoLookups(labels: seq<LabelNode>)
    ensures forall k :: Lookup(FilingInfo(labels), k) == LastValue(labels, k)
  {
    if labels != [] {
      var prefix := labels[..|labels| - 1];
      FilingInfoLookups(prefix);
      var last := labels[|labels| - 1];
      if last.value.Some? {
        FilingInfoValid(prefix);
        PutSemantics(FilingInfo(prefix), last.key, last.value.value);
      }
    }
  }

  /** `filing_info` never holds a key twice, and has at most one entry per label. */
  lemma {:induction false} FilingInfoValid(labels: seq<LabelNode>)
    ensures Valid(FilingInfo(labels))
    ensures |FilingInfo(labels)| <= |labels|
  {
    if labels != [] {
      var prefix := labels[..|labels| - 1];
      FilingInfoValid(prefix);
      var last := labels[|labels| - 1];
      if last.value.Some? {
        PutSemantics(FilingInfo(prefix), last.key, last.value.value);
      }
    }
  }

  /** A key is in `filing_info` exactly when some label with that key has a value. */
  lemma {:induction false} LastValueExists(labels: seq<LabelNode>, k: string)
    ensures LastValue(labels, k).Some? <==> exists i :: 0 <= i < |labels| && labels[i].key == k && labels[i].value.Some?
  {
    if labels != [] {
      var prefix := labels[..|labels| - 1];
      LastValueExists(prefix, k);
      if exists i :: 0 <= i < |labels| && labels[i].key == k && labels[i].value.Some? {
        var i :| 0 <= i < |labels| && labels[i].key == k && labels[i].value.Some?;
        if i < |prefix| { assert prefix[i] == labels[i]; }
      }
      if exists i :: 0 <= i < |prefix| && prefix[i].key == k && prefix[i].value.Some? {
        var i :| 0 <= i < |prefix| && prefix[i].key == k && prefix[i].value.Some?;
        assert labels[i] == prefix[i];
      }
    }
  }

  /** Keeping two-cell rows commutes with concatenation, so row order is preserved. */
  lemma {:induction false} TwoCellReportsAppend(a: seq<seq<string>>, b: seq<seq<string>>)
    ensures TwoCellReports(a + b) == TwoCellReports(a) + TwoCellReports(b)
  {
    if b != [] {
      var b' := b[..|b| - 1];
      TwoCellReportsAppend(a, b');
      assert (a + b)[..|a + b| - 1] == a + b';
    } else {
      assert a + b == a;
    }
  }

  /** A report is kept exactly when some body row consists of its two cells. */
  lemma {:induction false} TwoCellReportsMembers(rows: seq<seq<string>>, year: string, filed: string)
    ensures Report(year, filed) in TwoCellReports(rows) <==> [year, filed] in rows
  {
    if rows != [] {
      var prefix := rows[..|rows| - 1];
      var last := rows[|rows| - 1];
      TwoCellReportsMembers(prefix, year, filed);
      assert rows == prefix + [last];
      if |last| == 2 {
        assert last == [last[0], last[1]];
      }
    }
  }

  /** At most one report per body row, and the header row never yields one. */
  lemma {:induction false} AnnualReportsBound(header: seq<string>, body: seq<seq<string>>)
    ensures AnnualReports(Some([header] + body)) == TwoCellReports(body)
    ensures |TwoCellReports(body)| <= |body|
  {
    assert ([header] + body)[1..] == body;
    if body != [] {
      AnnualReportsBound(header, body[..|body| - 1]);
    }
  }

  /**
   * The address fallbacks: the owners block is consulted only when the first
   * stage left exactly "N/A"; an empty principal block gives "" and suppresses
   * it; with neither block the address is "N/A".
   */
  lemma AddressFallback(p: Page)
    ensures Address(p).Failure? <==> p.principal == NoValueSpan
    ensures p.principal.ValueSpan? && p.principal.block.Some? && Join(p.principal.block.value) != NA ==>
              Address(p) == Success(Join(p.principal.block.value))
    ensures p.principal == ValueSpan(Some([])) ==> Address(p) == Success("")
    ensures (p.principal == NoPrincipalSpan || p.principal == ValueSpan(None)) ==> PrincipalStage(p) == NA
    ensures !p.principal.NoValueSpan? && PrincipalStage(p) == NA ==>
              Address(p) == Success(if p.ownersBlock.Some? then Join(p.ownersBlock.value) else NA)
  {
  }

  /**
   * Extraction fails only on the crash path; otherwise every field degrades to
   * its default, and the status is the last value given for "Status".
   */
  lemma ExtractFields(p: Page)
    ensures Extract(p).Failure? <==> p.principal == NoValueSpan
    ensures Extract(p).Success? ==>
      var r := Extract(p).value;
      && r.name == (if p.nameText.Some? then p.nameText.value else NA)
      && r.status == (if p.filingLabels.Some? then LastValue(p.filingLabels.value, "Status").GetOr(NA) else NA)
      && |r.filingInfo| <= (if p.filingLabels.Some? then |p.filingLabels.value| else 0)
      && r.nextUrl == (if p.nextHref.Some? then Some(Origin + p.nextHref.value) else None)
  {
    if p.filingLabels.Some? {
      FilingInfoKeys(p.filingLabels.value);
      FilingInfoLookups(p.filingLabels.value);
      FilingInfoValid(p.filingLabels.value);
    }
  }
}
