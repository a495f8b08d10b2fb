/**
 * The read-only viewer over the same database: the by-id reads of
 * show_business_details, view_filing_details and view_annual_reports, and the
 * truncation of long cells in the filing-details table.
 */
module Viewer {
  import opened Wrappers
  import opened OrderedDict
  import opened Extraction
  import opened Schema

  /** Labels longer than this are cut and marked with "..". */
  const LabelWidth: nat := 18
  /** Values longer than this are cut and marked with "..". */
  const ValueWidth: nat := 21

  /** `(s[:width] + '..') if len(s) > width else s`. */
  function Truncate(s: string, width: nat): (r: string)
    ensures |s| <= width ==> r == s
    ensures |s| > width ==> |r| == width + 2 && r[width..] == ".."
    ensures |r| <= width + 2
    ensures r[..if |s| < width then |s| else width] == s[..if |s| < width then |s| else width]
  {
    if |s| > width then s[..width] + ".." else s
  }

  /** A label as shown: it fits the 20-character column. */
  function DisplayLabel(s: string): (r: string)
    ensures |r| <= 20
  {
    Truncate(s, LabelWidth)
  }

  /** A value as shown: it fits the 23-character column. */
  function DisplayValue(s: string): (r: string)
    ensures |r| <= 23
  {
    Truncate(s, ValueWidth)
  }

  /** Truncating a truncated cell changes nothing. */
  lemma TruncateIdempotent(s: string, width: nat)
    ensures Truncate(Truncate(s, width), width) == Truncate(s, width)
  {
    if |s| > width {
      assert (s[..width] + "..")[..width] == s[..width];
    }
  }

  // ---------------------------------------------------------------- reads by business id

  /** `SELECT label, value FROM filing_details WHERE business_id=?`, in storage order. */
  function FilingDetailsOf(rows: seq<Row<FilingDetail>>, id: nat): seq<(string, string)> {
    if rows == [] then []
    else
      var d := rows[0].data;
      (if d.businessId == id then [(d.labelText, d.value)] else []) + FilingDetailsOf(rows[1..], id)
  }

  /** `SELECT year, filed_date FROM annual_reports WHERE business_id=?`, in storage order. */
  function AnnualReportsOf(rows: seq<Row<AnnualReport>>, id: nat): seq<(string, string)> {
    if rows == [] then []
    else
      var d := rows[0].data;
      (if d.businessId == id then [(d.year, d.filedDate)] else []) + AnnualReportsOf(rows[1..], id)
  }

  /** `SELECT name, status, principal_address FROM businesses WHERE id=?` and `fetchone()`. */
  function FindBusiness(businesses: seq<Row<Business>>, id: nat): (r: Option<Business>)
    ensures r.Some? <==> HasBusiness(businesses, id)
    ensures r.Some? ==> exists i :: 0 <= i < |businesses| && businesses[i] == Row(id, r.value)
  {
    if businesses == [] then None
    else if businesses[0].id == id then Some(businesses[0].data)
    else
      var r := FindBusiness(businesses[1..], id);
      assert HasBusiness(businesses, id) ==> HasBusiness(businesses[1..], id) by {
        if HasBusiness(businesses, id) {
          var i :| 0 <= i < |businesses| && businesses[i].id == id;
          assert businesses[1..][i - 1] == businesses[i];
        }
      }
      assert r.Some? ==> exists i :: 0 <= i < |businesses| && businesses[i] == Row(id, r.value) by {
        if r.Some? {
          var i :| 0 <= i < |businesses[1..]| && businesses[1..][i] == Row(id, r.value);
          assert businesses[i + 1] == Row(id, r.value);
        }
      }
      r
  }

  /** What the detail view shows: the business, its filing details as displayed, and its annual reports. */
  datatype Details = Details(business: Business, filingDetails: seq<(string, string)>, annualReports: seq<(string, string)>)

  /** The filing-details table as displayed, every cell truncated. */
  function ViewFilingDetails(rows: seq<Row<FilingDetail>>, id: nat): (shown: seq<(string, string)>)
    ensures |shown| == |FilingDetailsOf(rows, id)|
    ensures forall i :: 0 <= i < |shown| ==> |shown[i].0| <= 20 && |shown[i].1| <= 23
  {
    var found := FilingDetailsOf(rows, id);
    seq(|found|, i requires 0 <= i < |found| => (DisplayLabel(found[i].0), DisplayValue(found[i].1)))
  }

  /** `show_business_details`: "not found" (no child table is read) or the three parts. */
  function ShowBusinessDetails(t: Tables, id: nat): (r: Option<Details>)
    ensures r.None? <==> !HasBusiness(t.businesses, id)
    ensures r.Some? ==> exists i :: 0 <= i < |t.businesses| && t.businesses[i] == Row(id, r.value.business)
    ensures r.Some? ==> r.value.filingDetails == ViewFilingDetails(t.filingDetails, id)
    ensures r.Some? ==> r.value.annualReports == AnnualReportsOf(t.annualReports, id)
  {
    match FindBusiness(t.businesses, id)
    case None => None
    case Some(b) => Some(Details(b, ViewFilingDetails(t.filingDetails, id), AnnualReportsOf(t.annualReports, id)))
  }

  // ---------------------------------------------------------------- properties of the reads

  /** The filter distributes over concatenation: order is storage order. */
  lemma {:induction false} FilingDetailsOfAppend(a: seq<Row<FilingDetail>>, b: seq<Row<FilingDetail>>, id: nat)
    ensures FilingDetailsOf(a + b, id) == FilingDetailsOf(a, id) + FilingDetailsOf(b, id)
  {
    if a != [] {
      FilingDetailsOfAppend(a[1..], b, id);
      assert (a + b)[1..] == a[1..] + b;
    } else {
      assert a + b == b;
    }
  }

  lemma {:induction false} AnnualReportsOfAppend(a: seq<Row<AnnualReport>>, b: seq<Row<AnnualReport>>, id: nat)
    ensures AnnualReportsOf(a + b, id) == AnnualReportsOf(a, id) + AnnualReportsOf(b, id)
  {
    if a != [] {
      AnnualReportsOfAppend(a[1..], b, id);
      assert (a + b)[1..] == a[1..] + b;
    } else {
      assert a + b == b;
    }
  }

  /** The filing-detail read returns exactly the stored rows with the requested business id. */
  lemma {:induction false} FilingDetailsOfMembers(rows: seq<Row<FilingDetail>>, id: nat, lbl: string, value: string)
    ensures (lbl, value) in FilingDetailsOf(rows, id) <==>
              exists i :: 0 <= i < |rows| && rows[i].data == FilingDetail(id, lbl, value)
  {
    if rows != [] {
      FilingDetailsOfMembers(rows[1..], id, lbl, value);
      if exists i :: 0 <= i < |rows| && rows[i].data == FilingDetail(id, lbl, value) {
        var i :| 0 <= i < |rows| && rows[i].data == FilingDetail(id, lbl, value);
        if i > 0 { assert rows[1..][i - 1] == rows[i]; }
      }
      if exists i :: 0 <= i < |rows[1..]| && rows[1..][i].data == FilingDetail(id, lbl, value) {
        var i :| 0 <= i < |rows[1..]| && rows[1..][i].data == FilingDetail(id, lbl, value);
        assert rows[i + 1] == rows[1..][i];
      }
    }
  }

  /** The annual-report read returns exactly the stored rows with the requested business id. */
  lemma {:induction false} AnnualReportsOfMembers(rows: seq<Row<AnnualReport>>, id: nat, year: string, filed: string)
    ensures (year, filed) in AnnualReportsOf(rows, id) <==>
              exists i :: 0 <= i < |rows| && rows[i].data == AnnualReport(id, year, filed)
  {
    if rows != [] {
      AnnualReportsOfMembers(rows[1..], id, year, filed);
      if exists i :: 0 <= i < |rows| && rows[i].data == AnnualReport(id, year, filed) {
        var i :| 0 <= i < |rows| && rows[i].data == AnnualReport(id, year, filed);
        if i > 0 { assert rows[1..][i - 1] == rows[i]; }
      }
      if exists i :: 0 <= i < |rows[1..]| && rows[1..][i].data == AnnualReport(id, year, filed) {
        var i :| 0 <= i < |rows[1..]| && rows[1..][i].data == AnnualReport(id, year, filed);
        assert rows[i + 1] == rows[1..][i];
      }
    }
  }

  lemma {:induction false} FilingDetailsOfOthers(rows: seq<Row<FilingDetail>>, id: nat)
    requires forall i :: 0 <= i < |rows| ==> rows[i].data.businessId != id
    ensures FilingDetailsOf(rows, id) == []
  {
    if rows != [] {
      FilingDetailsOfOthers(rows[1..], id);
    }
  }

  lemma {:induction false} AnnualReportsOfOthers(rows: seq<Row<AnnualReport>>, id: nat)
    requires forall i :: 0 <= i < |rows| ==> rows[i].data.businessId != id
    ensures AnnualReportsOf(rows, id) == []
  {
    if rows != [] {
      AnnualReportsOfOthers(rows[1..], id);
    }
  }

  lemma {:induction false} FilingRowsReadBack(firstId: nat, id: nat, info: Dict)
    ensures FilingDetailsOf(FilingRows(firstId, id, info), id) == info
    decreases |info|
  {
    if info != [] {
      FilingRowsReadBack(firstId + 1, id, info[1..]);
      assert FilingRows(firstId, id, info)[1..] == FilingRows(firstId + 1, id, info[1..]);
    }
  }

  /** The (year, filed date) pairs of the reports, in order. */
  function ReportPairs(reports: seq<Report>): seq<(string, string)> {
    seq(|reports|, i requires 0 <= i < |reports| => (reports[i].year, reports[i].filedDate))
  }

  lemma {:induction false} ReportRowsReadBack(firstId: nat, id: nat, reports: seq<Report>)
    ensures AnnualReportsOf(ReportRows(firstId, id, reports), id) == ReportPairs(reports)
    decreases |reports|
  {
    if reports != [] {
      ReportRowsReadBack(firstId + 1, id, reports[1..]);
      assert ReportRows(firstId, id, reports)[1..] == ReportRows(firstId + 1, id, reports[1..]);
      assert ReportPairs(reports) == [(reports[0].year, reports[0].filedDate)] + ReportPairs(reports[1..]);
    }
  }

  /**
   * Round trip: right after a record is saved, reading back by its new id gives
   * its business row, its filing pairs and its reports, in their original order.
   */
  lemma InsertReadBack(t: Tables, rec: Record)
    requires WellFormed(t)
    ensures var (t', id) := Insert(t, rec);
      && FindBusiness(t'.businesses, id) == Some(Business(rec.name, rec.status, rec.address))
      && FilingDetailsOf(t'.filingDetails, id) == rec.filingInfo
      && AnnualReportsOf(t'.annualReports, id) == ReportPairs(rec.reports)
  {
    var (t', id) := Insert(t, rec);
    InsertWellFormed(t, rec);
    forall i | 0 <= i < |t.filingDetails| ensures t.filingDetails[i].data.businessId != id {
      var j :| 0 <= j < |t.businesses| && t.businesses[j].id == t.filingDetails[i].data.businessId;
    }
    forall i | 0 <= i < |t.annualReports| ensures t.annualReports[i].data.businessId != id {
      var j :| 0 <= j < |t.businesses| && t.businesses[j].id == t.annualReports[i].data.businessId;
    }
    FilingDetailsOfOthers(t.filingDetails, id);
    AnnualReportsOfOthers(t.annualReports, id);
    FilingDetailsOfAppend(t.filingDetails, FilingRows(NextId(t.filingDetails), id, rec.filingInfo), id);
    AnnualReportsOfAppend(t.annualReports, ReportRows(NextId(t.annualReports), id, rec.reports), id);
    FilingRowsReadBack(NextId(t.filingDetails), id, rec.filingInfo);
    ReportRowsReadBack(NextId(t.annualReports), id, rec.reports);
    var b := FindBusiness(t'.businesses, id);
    var i :| 0 <= i < |t'.businesses| && t'.businesses[i] == Row(id, b.value);
  }

  /** Saving a record leaves what the viewer shows for every other business id unchanged. */
  lemma InsertKeepsOtherReads(t: Tables, rec: Record, other: nat)
    requires other != Insert(t, rec).1
    ensures var t' := Insert(t, rec).0;
      && FilingDetailsOf(t'.filingDetails, other) == FilingDetailsOf(t.filingDetails, other)
      && AnnualReportsOf(t'.annualReports, other) == AnnualReportsOf(t.annualReports, other)
      && HasBusiness(t'.businesses, other) == HasBusiness(t.businesses, other)
      && FindBusiness(t'.businesses, other) == FindBusiness(t.businesses, other)
      && ShowBusinessDetails(t', other) == ShowBusinessDetails(t, other)
  {
    var (t', id) := Insert(t, rec);
    var fr := FilingRows(NextId(t.filingDetails), id, rec.filingInfo);
    var rr := ReportRows(NextId(t.annualReports), id, rec.reports);
    FilingDetailsOfAppend(t.filingDetails, fr, other);
    AnnualReportsOfAppend(t.annualReports, rr, other);
    FilingDetailsOfOthers(fr, other);
    AnnualReportsOfOthers(rr, other);
    HasBusinessAppend(t.businesses, t'.businesses[|t.businesses|], other);
    FindBusinessAppend(t.businesses, t'.businesses[|t.businesses|], other);
  }

  lemma {:induction false} FindBusinessAppend(businesses: seq<Row<Business>>, row: Row<Business>, other: nat)
    requires row.id != other
    ensures FindBusiness(businesses + [row], other) == FindBusiness(businesses, other)
  {
    if businesses != [] {
      assert (businesses + [row])[1..] == businesses[1..] + [row];
      FindBusinessAppend(businesses[1..], row, other);
    }
  }

  lemma HasBusinessAppend(businesses: seq<Row<Business>>, row: Row<Business>, other: nat)
    requires row.id != other
    ensures HasBusiness(businesses + [row], other) == HasBusiness(businesses, other)
  {
    var bs := businesses + [row];
    if HasBusiness(bs, other) {
      var j :| 0 <= j < |bs| && bs[j].id == other;
      assert bs[j] == businesses[j];
    }
    if HasBusiness(businesses, other) {
      var j :| 0 <= j < |businesses| && businesses[j].id == other;
      assert bs[j] == businesses[j];
    }
  }
}
