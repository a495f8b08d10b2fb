/**
 * The pagination loop of scrape_and_save and the connection handling of main.
 * The HTTP session is a fetch oracle: a map from each URL that loads to its
 * page; for any other URL `session.get` or `raise_for_status` raises a
 * RequestException.
 */
module Crawler {
  import opened Wrappers
  import opened Extraction
  import opened Schema
  import opened Storage

  /** The record limit the generated script binds before its loop. */
  const ScrapeLimit: int := 10
  /** The limit value that means "no limit". */
  const Unlimited: int := -1

  type Fetcher = map<string, Page>

  /** Python truthiness of `url`: `None` and "" stop the loop. */
  predicate Truthy(url: Option<string>) {
    url.Some? && url.value != ""
  }

  /** What one pass of the loop body makes of a URL. */
  datatype Visit = RequestFailed | Crashed | Saved(rec: Record)

  function VisitPage(fetch: Fetcher, url: string): Visit {
    if url !in fetch then RequestFailed
    else match Extract(fetch[url])
      case Failure(_) => Crashed
      case Success(rec) => Saved(rec)
  }

  /**
   * Why a walk stopped: the URL became falsy (the chain ended), a request
   * failed, extraction crashed, or the budget was spent while the chain still
   * went on.
   */
  datatype Ending = ChainEnd | RequestFailure | ExtractionCrash | BudgetSpent

  /** The records saved by a walk along the "Next On List" chain, and why it stopped. */
  datatype Walk = Walk(saved: seq<Record>, ending: Ending)

  /**
   * The walk from `url` that fetches at most `n` pages: it stops at a falsy URL,
   * when the budget is spent, at a transport failure, or at the crash of
   * extraction, and otherwise saves the page's record and follows its next URL.
   */
  function Follow(fetch: Fetcher, url: Option<string>, n: nat): Walk
    decreases n
  {
    if !Truthy(url) then Walk([], ChainEnd)
    else if n == 0 then Walk([], BudgetSpent)
    else match VisitPage(fetch, url.value)
      case RequestFailed => Walk([], RequestFailure)
      case Crashed => Walk([], ExtractionCrash)
      case Saved(rec) =>
        var rest := Follow(fetch, rec.nextUrl, n - 1);
        Walk([rec] + rest.saved, rest.ending)
  }

  /**
   * The number of pages the walk requests: one per saved record, plus the one
   * whose request failed or whose extraction crashed.
   */
  function Fetches(fetch: Fetcher, url: Option<string>, n: nat): nat
    decreases n
  {
    if !Truthy(url) || n == 0 then 0
    else match VisitPage(fetch, url.value)
      case Saved(rec) => 1 + Fetches(fetch, rec.nextUrl, n - 1)
      case _ => 1
  }

  /** The chain from `url` comes to its end after at most `n` fetches. */
  predicate StopsWithin(fetch: Fetcher, url: Option<string>, n: nat) {
    !Follow(fetch, url, n).ending.BudgetSpent?
  }

  /**
   * The number of pages the loop may fetch: the limit itself when positive, none
   * for any other limit except the unlimited sentinel, and for that one a bound
   * on the length of the chain.
   */
  function Budget(limit: int, chainBound: nat): nat {
    if limit == Unlimited then chainBound else if limit < 0 then 0 else limit
  }

  /** How scrape_and_save ends: it returns the count, or the AttributeError escapes it. */
  datatype CrawlEnd = Returned(count: nat) | Raised(error: Crash)

  function Outcome(w: Walk): CrawlEnd {
    if w.ending.ExtractionCrash? then Raised(AttributeError) else Returned(|w.saved|)
  }

  /**
   * The body of the `try`: fetch the page, extract its record and, unless the
   * request failed or extraction crashed, save it in one commit.
   */
  method VisitAndSave(store: Store, fetch: Fetcher, url: string) returns (v: Visit)
    requires store.Valid() && store.open && store.tablesExist
    modifies store
    ensures store.Valid() && store.open && store.tablesExist
    ensures v == VisitPage(fetch, url)
    ensures store.Contents() == if v.Saved? then Insert(old(store.Contents()), v.rec).0 else old(store.Contents())
  {
    if url !in fetch {
      return RequestFailed;
    }
    var r := ParsePage(fetch[url]);
    if r.Failure? {
      return Crashed;
    }
    var businessId := store.SaveBusiness(r.value);
    v := Saved(r.value);
  }

  /**
   * The `while url and (limit == -1 or scraped_count < limit)` loop. Each page
   * that is fetched and extracted is saved and counted; a transport failure
   * breaks the loop with the count so far; the crash leaves the rows committed
   * before it. `chainBound` is a proof-only bound on the chain's length that
   * the unlimited case needs for termination.
   */
  method Crawl(store: Store, fetch: Fetcher, start: string, limit: int, ghost chainBound: nat) returns (end: CrawlEnd)
    requires store.Valid() && store.open && store.tablesExist
    requires limit == Unlimited ==> StopsWithin(fetch, Some(start), chainBound)
    modifies store
    ensures store.Valid() && store.open && store.tablesExist
    ensures store.Contents() == SaveAll(old(store.Contents()), Follow(fetch, Some(start), Budget(limit, chainBound)).saved)
    ensures end == Outcome(Follow(fetch, Some(start), Budget(limit, chainBound)))
  {
    ghost var t0 := store.Contents();
    ghost var budget := Budget(limit, chainBound);
    ghost var done: seq<Record> := [];
    var url := Some(start);
    var count: nat := 0;
    ghost var left: nat := budget;
    ghost var whole := Follow(fetch, Some(start), budget);
    assert limit == Unlimited ==> !whole.ending.BudgetSpent?;
    while Truthy(url) && (limit == Unlimited || count < limit)
      invariant store.Valid() && store.open && store.tablesExist
      invariant count == |done| && left == budget - count
      invariant store.Contents() == SaveAll(t0, done)
      invariant whole == After(done, Follow(fetch, url, left))
      decreases left
    {
      if limit == Unlimited {
        BudgetLeft(whole, done, fetch, url, left);
      }
      var v := VisitAndSave(store, fetch, url.value);
      if !v.Saved? {
        FollowEnds(whole, done, fetch, url, left);
        if v.Crashed? {
          return Raised(AttributeError);
        }
        break;
      }
      FollowStep(whole, done, fetch, url, left, v.rec);
      SaveAllSnoc(t0, done, v.rec);
      done := done + [v.rec];
      count := count + 1;
      left := left - 1;
      url := v.rec.nextUrl;
    }
    FollowEnds(whole, done, fetch, url, left);
    end := Returned(count);
  }

  /** The walk `w` continuing after the records `done` were saved. */
  function After(done: seq<Record>, w: Walk): Walk {
    Walk(done + w.saved, w.ending)
  }

  /** Without a limit the loop always has budget left: the whole walk is known not to be cut off. */
  lemma BudgetLeft(whole: Walk, done: seq<Record>, fetch: Fetcher, url: Option<string>, left: nat)
    requires whole == After(done, Follow(fetch, url, left)) && Truthy(url) && !whole.ending.BudgetSpent?
    ensures left > 0
  {
  }

  /** Where the loop stops, the whole walk has saved exactly `done`, and it has crashed only on the crash path. */
  lemma FollowEnds(whole: Walk, done: seq<Record>, fetch: Fetcher, url: Option<string>, n: nat)
    requires whole == After(done, Follow(fetch, url, n))
    requires n == 0 || !Truthy(url) || !VisitPage(fetch, url.value).Saved?
    ensures whole.saved == done
    ensures whole.ending.ExtractionCrash? <==> n > 0 && Truthy(url) && VisitPage(fetch, url.value).Crashed?
  {
    assert done + [] == done;
  }

  /** One successful iteration of the loop moves one record from the rest of the walk to `done`. */
  lemma FollowStep(whole: Walk, done: seq<Record>, fetch: Fetcher, url: Option<string>, n: nat, rec: Record)
    requires whole == After(done, Follow(fetch, url, n))
    requires n > 0 && Truthy(url) && VisitPage(fetch, url.value) == Saved(rec)
    ensures whole == After(done + [rec], Follow(fetch, rec.nextUrl, n - 1))
  {
  }

  /** `scrape_and_save(url, conn)` as generated, with its fixed limit. */
  method ScrapeAndSave(store: Store, fetch: Fetcher, start: string) returns (end: CrawlEnd)
    requires store.Valid() && store.open && store.tablesExist
    modifies store
    ensures store.Valid() && store.open && store.tablesExist
    ensures store.Contents() == SaveAll(old(store.Contents()), Follow(fetch, Some(start), ScrapeLimit).saved)
    ensures end == Outcome(Follow(fetch, Some(start), ScrapeLimit))
  {
    end := Crawl(store, fetch, start, ScrapeLimit, 0);
  }

  /** `main`: create the tables, crawl, and close the connection on every path. */
  method RunScraper(store: Store, fetch: Fetcher, start: string) returns (end: CrawlEnd)
    requires store.Valid() && store.open
    modifies store
    ensures store.Valid() && !store.open && store.tablesExist
    ensures store.Contents() == SaveAll(old(store.Contents()), Follow(fetch, Some(start), ScrapeLimit).saved)
    ensures end == Outcome(Follow(fetch, Some(start), ScrapeLimit))
  {
    store.CreateTables();
    end := ScrapeAndSave(store, fetch, start);
    store.Close();
  }

  // ---------------------------------------------------------------- properties of the walk

  /**
   * What a crawl leaves behind: earlier rows untouched, one business row per
   * record saved, so a returned count equals the business rows the call
   * committed, and no more records than the limit.
   */
  lemma CrawlSummary(t: Tables, fetch: Fetcher, start: string, limit: int, chainBound: nat)
    requires WellFormed(t)
    ensures var w := Follow(fetch, Some(start), Budget(limit, chainBound));
      && WellFormed(SaveAll(t, w.saved))
      && Extends(t, SaveAll(t, w.saved))
      && |SaveAll(t, w.saved).businesses| == |t.businesses| + |w.saved|
      && (Outcome(w).Returned? ==> Outcome(w).count == |w.saved|)
      && |w.saved| <= Budget(limit, chainBound)
  {
    var w := Follow(fetch, Some(start), Budget(limit, chainBound));
    SaveAllInvariants(t, w.saved);
    FollowWithinBudget(fetch, Some(start), Budget(limit, chainBound));
  }

  /** A walk never fetches, and so never saves, more than its budget. */
  lemma {:induction false} FollowWithinBudget(fetch: Fetcher, url: Option<string>, n: nat)
    ensures |Follow(fetch, url, n).saved| <= n
    decreases n
  {
    if n > 0 && Truthy(url) && VisitPage(fetch, url.value).Saved? {
      FollowWithinBudget(fetch, VisitPage(fetch, url.value).rec.nextUrl, n - 1);
    }
  }

  /**
   * A walk requests at most its budget of pages; it requests one page per
   * saved record and one more exactly when it ends at a failed request or the
   * crash.
   */
  lemma {:induction false} FetchesWithinBudget(fetch: Fetcher, url: Option<string>, n: nat)
    ensures Fetches(fetch, url, n) <= n
    ensures var w := Follow(fetch, url, n);
      Fetches(fetch, url, n) == |w.saved| + (if w.ending.RequestFailure? || w.ending.ExtractionCrash? then 1 else 0)
    decreases n
  {
    if n > 0 && Truthy(url) && VisitPage(fetch, url.value).Saved? {
      FetchesWithinBudget(fetch, VisitPage(fetch, url.value).rec.nextUrl, n - 1);
    }
  }

  /** Once the chain is known to end within `n` fetches, a larger budget changes nothing. */
  lemma {:induction false} FollowBeyondChainEnd(fetch: Fetcher, url: Option<string>, n: nat, m: nat)
    requires StopsWithin(fetch, url, n) && n <= m
    ensures Follow(fetch, url, n) == Follow(fetch, url, m)
    decreases n
  {
    if Truthy(url) && VisitPage(fetch, url.value).Saved? {
      FollowBeyondChainEnd(fetch, VisitPage(fetch, url.value).rec.nextUrl, n - 1, m - 1);
    }
  }

  /** The budget cuts a walk off only after it has saved a record for every page it was allowed. */
  lemma {:induction false} CutOffSavesBudget(fetch: Fetcher, url: Option<string>, n: nat)
    ensures Follow(fetch, url, n).ending.BudgetSpent? ==> |Follow(fetch, url, n).saved| == n
    decreases n
  {
    if n > 0 && Truthy(url) && VisitPage(fetch, url.value).Saved? {
      CutOffSavesBudget(fetch, VisitPage(fetch, url.value).rec.nextUrl, n - 1);
    }
  }

  /** `n` pages in a row that load and extract, each linking to the next. */
  predicate GoodChain(fetch: Fetcher, url: Option<string>, n: nat)
    decreases n
  {
    n == 0 ||
    (Truthy(url) && VisitPage(fetch, url.value).Saved? &&
     GoodChain(fetch, VisitPage(fetch, url.value).rec.nextUrl, n - 1))
  }

  /** On a chain of at least `n` good pages, a budget of `n` saves exactly `n` records. */
  lemma {:induction false} FollowGoodChain(fetch: Fetcher, url: Option<string>, n: nat)
    requires GoodChain(fetch, url, n)
    ensures |Follow(fetch, url, n).saved| == n && !Follow(fetch, url, n).ending.ExtractionCrash?
    decreases n
  {
    if n > 0 {
      FollowGoodChain(fetch, VisitPage(fetch, url.value).rec.nextUrl, n - 1);
    }
  }

  /**
   * A limit of zero or below, other than the sentinel, requests no page (the
   * walk is the same without any page to fetch), saves nothing and returns 0.
   */
  lemma NonPositiveLimit(fetch: Fetcher, start: string, limit: int, chainBound: nat)
    requires limit <= 0 && limit != Unlimited
    ensures Fetches(fetch, Some(start), Budget(limit, chainBound)) == 0
    ensures Follow(fetch, Some(start), Budget(limit, chainBound)) == Follow(map[], Some(start), Budget(limit, chainBound))
    ensures Follow(fetch, Some(start), Budget(limit, chainBound)).saved == []
    ensures Outcome(Follow(fetch, Some(start), Budget(limit, chainBound))) == Returned(0)
  {
  }

  /** A page without a "Next On List" link ends the crawl after exactly its one record, for any budget of 1 or more. */
  lemma LastPageStops(fetch: Fetcher, start: string, n: nat)
    requires start != "" && n >= 1
    requires start in fetch && Extract(fetch[start]).Success?
    requires fetch[start].nextHref.None?
    ensures Follow(fetch, Some(start), n) == Walk([Extract(fetch[start]).value], ChainEnd)
    ensures StopsWithin(fetch, Some(start), 1)
  {
    ExtractFields(fetch[start]);
  }
}
