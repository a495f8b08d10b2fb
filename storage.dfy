/**
 * The SQLite connection the crawler writes to, as an object whose tables the
 * operations append to in place (create_tables, the inserts and commit of
 * scrape_and_save, and the close in main).
 */
module Storage {
  import opened Wrappers
  import opened Extraction
  import opened OrderedDict
  import opened Schema

  class Store {
    var open: bool
    var tablesExist: bool
    var businesses: seq<Row<Business>>
    var filingDetails: seq<Row<FilingDetail>>
    var annualReports: seq<Row<AnnualReport>>

    function Contents(): Tables
      reads this
    {
      Tables(businesses, filingDetails, annualReports)
    }

    /** The rows are well formed, and there are none before the tables are created. */
    ghost predicate Valid()
      reads this
    {
      WellFormed(Contents()) && (!tablesExist ==> Contents() == Empty)
    }

    /** `sqlite3.connect(path)`: a new file, or a file holding the tables of an earlier run. */
    constructor Connect(existing: Option<Tables>)
      requires existing.Some? ==> WellFormed(existing.value)
      ensures Valid() && open
      ensures tablesExist == existing.Some?
      ensures Contents() == existing.GetOr(Empty)
    {
      open := true;
      tablesExist := existing.Some?;
      businesses := existing.GetOr(Empty).businesses;
      filingDetails := existing.GetOr(Empty).filingDetails;
      annualReports := existing.GetOr(Empty).annualReports;
    }

    /** `create_tables`: every statement is `CREATE TABLE IF NOT EXISTS`, so rows already present stay. */
    method CreateTables()
      requires Valid() && open
      modifies this
      ensures Valid() && open && tablesExist
      ensures Contents() == old(Contents())
      ensures old(tablesExist) ==> unchanged(this)
    {
      if !tablesExist {
        tablesExist := true;
      }
    }

    /**
     * The save of one record: the `businesses` insert, its `lastrowid`, one
     * `filing_details` insert per dict entry, one `annual_reports` insert per
     * report, then the commit.
     */
    method SaveBusiness(rec: Record) returns (businessId: nat)
      requires Valid() && open && tablesExist
      modifies this
      ensures Valid() && open && tablesExist
      ensures (Contents(), businessId) == Insert(old(Contents()), rec)
    {
      ghost var before := Contents();
      businessId := NextId(businesses);
      businesses := businesses + [Row(businessId, Business(rec.name, rec.status, rec.address))];
      InsertFilingDetails(businessId, rec.filingInfo);
      InsertAnnualReports(businessId, rec.reports);
      InsertWellFormed(before, rec);
    }

    /** The `for key, value in filing_info.items()` loop: one row per entry, in dict order. */
    method InsertFilingDetails(businessId: nat, info: Dict)
      modifies this
      ensures filingDetails == old(filingDetails) + FilingRows(old(NextId(filingDetails)), businessId, info)
      ensures businesses == old(businesses) && annualReports == old(annualReports)
      ensures open == old(open) && tablesExist == old(tablesExist)
    {
      ghost var first := NextId(filingDetails);
      for i := 0 to |info|
        invariant filingDetails == old(filingDetails) + FilingRows(first, businessId, info[..i])
        invariant NextId(filingDetails) == first + i
        invariant businesses == old(businesses) && annualReports == old(annualReports)
        invariant open == old(open) && tablesExist == old(tablesExist)
      {
        FilingRowsSnoc(first, businessId, info[..i], info[i]);
        assert info[..i + 1] == info[..i] + [info[i]];
        filingDetails := filingDetails + [Row(NextId(filingDetails), FilingDetail(businessId, info[i].0, info[i].1))];
      }
      assert info[..|info|] == info;
    }

    /** The `for report in annual_reports` loop: one row per report, in table order. */
    method InsertAnnualReports(businessId: nat, reports: seq<Report>)
      modifies this
      ensures annualReports == old(annualReports) + ReportRows(old(NextId(annualReports)), businessId, reports)
      ensures businesses == old(businesses) && filingDetails == old(filingDetails)
      ensures open == old(open) && tablesExist == old(tablesExist)
    {
      ghost var first := NextId(annualReports);
      for i := 0 to |reports|
        invariant annualReports == old(annualReports) + ReportRows(first, businessId, reports[..i])
        invariant NextId(annualReports) == first + i
        invariant businesses == old(businesses) && filingDetails == old(filingDetails)
        invariant open == old(open) && tablesExist == old(tablesExist)
      {
        ReportRowsSnoc(first, businessId, reports[..i], reports[i]);
        assert reports[..i + 1] == reports[..i] + [reports[i]];
        annualReports := annualReports + [Row(NextId(annualReports), AnnualReport(businessId, reports[i].year, reports[i].filedDate))];
      }
      assert reports[..|reports|] == reports;
    }

    /** `conn.close()`. */
    method Close()
      requires Valid()
      modifies this
      ensures Valid() && !open
      ensures tablesExist == old(tablesExist) && Contents() == old(Contents())
    {
      open := false;
    }
  }
}
