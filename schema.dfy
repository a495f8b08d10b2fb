/**
 * The three-table schema of create_tables and the effect of saving one
 * extracted record on it, as values. SQLite assigns each new row the rowid one
 * past the table's last (largest) rowid, starting at 1.
 */
module Schema {
  import opened Extraction
  import opened OrderedDict

  datatype Business = Business(name: string, status: string, principalAddress: string)
  datatype FilingDetail = FilingDetail(businessId: nat, labelText: string, value: string)
  datatype AnnualReport = AnnualReport(businessId: nat, year: string, filedDate: string)

  /** A table row: its `id INTEGER PRIMARY KEY` and the other columns. */
  datatype Row<T> = Row(id: nat, data: T)

  datatype Tables = Tables(
    businesses: seq<Row<Business>>,
    filingDetails: seq<Row<FilingDetail>>,
    annualReports: seq<Row<AnnualReport>>)

  const Empty := Tables([], [], [])

  /** Row ids are positive and strictly increase in insertion order. */
  predicate IdsIncreasing<T>(rows: seq<Row<T>>) {
    (forall i :: 0 <= i < |rows| ==> rows[i].id >= 1)
    && (forall i, j :: 0 <= i < j < |rows| ==> rows[i].id < rows[j].id)
  }

  /** The id SQLite gives the next row inserted (`cursor.lastrowid` after the insert). */
  function NextId<T>(rows: seq<Row<T>>): (id: nat)
    ensures id >= 1
    ensures IdsIncreasing(rows) ==> forall i :: 0 <= i < |rows| ==> rows[i].id < id
  {
    if rows == [] then 1 else rows[|rows| - 1].id + 1
  }

  predicate HasBusiness(businesses: seq<Row<Business>>, id: nat) {
    exists i :: 0 <= i < |businesses| && businesses[i].id == id
  }

  /** Unique increasing ids and referential integrity: no child row is orphaned. */
  predicate WellFormed(t: Tables) {
    && IdsIncreasing(t.businesses)
    && IdsIncreasing(t.filingDetails)
    && IdsIncreasing(t.annualReports)
    && (forall i :: 0 <= i < |t.filingDetails| ==> HasBusiness(t.businesses, t.filingDetails[i].data.businessId))
    && (forall i :: 0 <= i < |t.annualReports| ==> HasBusiness(t.businesses, t.annualReports[i].data.businessId))
  }

  /** One `filing_details` row per dict entry, tagged with `businessId`, with consecutive ids from `firstId`. */
  function FilingRows(firstId: nat, businessId: nat, info: Dict): seq<Row<FilingDetail>> {
    seq(|info|, i requires 0 <= i < |info| => Row(firstId + i, FilingDetail(businessId, info[i].0, info[i].1)))
  }

  /** One `annual_reports` row per kept report, tagged with `businessId`, with consecutive ids from `firstId`. */
  function ReportRows(firstId: nat, businessId: nat, reports: seq<Report>): seq<Row<AnnualReport>> {
    seq(|reports|, i requires 0 <= i < |reports| => Row(firstId + i, AnnualReport(businessId, reports[i].year, reports[i].filedDate)))
  }

  /** One more dict entry adds one more row, with the next id. */
  lemma FilingRowsSnoc(firstId: nat, businessId: nat, info: Dict, entry: (string, string))
    ensures FilingRows(firstId, businessId, info + [entry])
      == FilingRows(firstId, businessId, info) + [Row(firstId + |info|, FilingDetail(businessId, entry.0, entry.1))]
  {
  }

  /** One more report adds one more row, with the next id. */
  lemma ReportRowsSnoc(firstId: nat, businessId: nat, reports: seq<Report>, report: Report)
    ensures ReportRows(firstId, businessId, reports + [report])
      == ReportRows(firstId, businessId, reports) + [Row(firstId + |reports|, AnnualReport(businessId, report.year, report.filedDate))]
  {
  }

  /**
   * Saving one record: the business row first, then its filing details and
   * annual reports carrying the new business id. Returns the tables and that id.
   */
  function Insert(t: Tables, rec: Record): (Tables, nat) {
    var id := NextId(t.businesses);
    (Tables(
       t.businesses + [Row(id, Business(rec.name, rec.status, rec.address))],
       t.filingDetails + FilingRows(NextId(t.filingDetails), id, rec.filingInfo),
       t.annualReports + ReportRows(NextId(t.annualReports), id, rec.reports)),
     id)
  }

  /** Saving several records one after the other. */
  function SaveAll(t: Tables, recs: seq<Record>): Tables {
    if recs == [] then t else Insert(SaveAll(t, recs[..|recs| - 1]), recs[|recs| - 1]).0
  }

  lemma SaveAllSnoc(t: Tables, recs: seq<Record>, rec: Record)
    ensures SaveAll(t, recs + [rec]) == Insert(SaveAll(t, recs), rec).0
  {
    assert (recs + [rec])[..|recs|] == recs;
  }

  /** Ids allocated from `NextId` keep a table's ids increasing. */
  lemma AppendConsecutiveIds<T>(rows: seq<Row<T>>, added: seq<Row<T>>)
    requires IdsIncreasing(rows)
    requires forall i :: 0 <= i < |added| ==> added[i].id == NextId(rows) + i
    ensures IdsIncreasing(rows + added)
  {
  }

  /**
   * Saving a record keeps the store well formed; the new business id was not
   * in use before and names a business afterwards.
   */
  lemma InsertWellFormed(t: Tables, rec: Record)
    requires WellFormed(t)
    ensures WellFormed(Insert(t, rec).0)
    ensures !HasBusiness(t.businesses, Insert(t, rec).1)
    ensures HasBusiness(Insert(t, rec).0.businesses, Insert(t, rec).1)
  {
    var (t', id) := Insert(t, rec);
    AppendConsecutiveIds(t.businesses, [Row(id, Business(rec.name, rec.status, rec.address))]);
    AppendConsecutiveIds(t.filingDetails, FilingRows(NextId(t.filingDetails), id, rec.filingInfo));
    AppendConsecutiveIds(t.annualReports, ReportRows(NextId(t.annualReports), id, rec.reports));
    assert t'.businesses[|t.businesses|].id == id;
    forall i | 0 <= i < |t'.filingDetails| ensures HasBusiness(t'.businesses, t'.filingDetails[i].data.businessId) {
      if i < |t.filingDetails| {
        var j :| 0 <= j < |t.businesses| && t.businesses[j].id == t.filingDetails[i].data.businessId;
        assert t'.businesses[j] == t.businesses[j];
      }
    }
    forall i | 0 <= i < |t'.annualReports| ensures HasBusiness(t'.businesses, t'.annualReports[i].data.businessId) {
      if i < |t.annualReports| {
        var j :| 0 <= j < |t.businesses| && t.businesses[j].id == t.annualReports[i].data.businessId;
        assert t'.businesses[j] == t.businesses[j];
      }
    }
  }

  /** The tables before are prefixes of the tables after: saving only appends. */
  predicate Extends(before: Tables, after: Tables) {
    && before.businesses <= after.businesses
    && before.filingDetails <= after.filingDetails
    && before.annualReports <= after.annualReports
  }

  /**
   * Saving records one by one keeps the store well formed, only appends, and
   * adds exactly one business row per record.
   */
  lemma {:induction false} SaveAllInvariants(t: Tables, recs: seq<Record>)
    requires WellFormed(t)
    ensures WellFormed(SaveAll(t, recs))
    ensures Extends(t, SaveAll(t, recs))
    ensures |SaveAll(t, recs).businesses| == |t.businesses| + |recs|
  {
    if recs != [] {
      var prior := SaveAll(t, recs[..|recs| - 1]);
      SaveAllInvariants(t, recs[..|recs| - 1]);
      InsertWellFormed(prior, recs[|recs| - 1]);
    }
  }
}
