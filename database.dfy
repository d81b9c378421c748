/**
 * The record shapes of the listings database, the defaults a new row takes, the
 * uniqueness constraints, and the content hash used for change detection.
 * Timestamps are readings of the store's clock; SHA-256 over the JSON text is
 * the uninterpreted `digest`.
 */
module Database {
  import opened Wrappers
  import opened Json
  import opened Text
  import opened Sorting

  // ---------------------------------------------------------------- listings

  /** The columns `save_or_update_listing` copies from the scraped dictionary, in order. */
  const ListingColumns: seq<string> := [
    "title", "business_category", "asking_price", "asking_price_raw",
    "location_city", "location_state", "location_raw", "revenue", "cash_flow",
    "seller_reason_raw", "url", "is_retirement_listing"]

  /** The columns declared NOT NULL among them. */
  const RequiredListingColumns: seq<string> := ["title", "url", "is_retirement_listing"]

  /** The NOT NULL columns sit at positions 0, 10 and 11. */
  lemma RequiredColumnPositions(i: nat)
    requires i < |ListingColumns| && ListingColumns[i] in RequiredListingColumns
    ensures i == 0 || i == 10 || i == 11
  {
  }

  /**
   * A `listings` row: `data` holds the copied columns keyed by name, in
   * ListingColumns order.
   */
  datatype Listing = Listing(
    id: nat,
    externalId: Value,
    data: Dict,
    contentHash: string,
    firstSeenAt: nat,
    lastUpdatedAt: nat,
    isActive: bool)

  /** A `listing_snapshots` row. */
  datatype Snapshot = Snapshot(id: nat, listingId: nat, dataJson: Dict, contentHash: string, createdAt: nat)

  /** A new listing row: active, first seen and last updated now. */
  function NewListing(id: nat, externalId: Value, data: Dict, hash: string, now: nat): (l: Listing)
    ensures l.isActive && l.firstSeenAt == now && l.lastUpdatedAt == now
    ensures l.id == id && l.externalId == externalId && l.data == data && l.contentHash == hash
  {
    Listing(id, externalId, data, hash, now, now, true)
  }

  /** External ids are unique across the table. */
  ghost predicate UniqueExternalIds(listings: seq<Listing>) {
    forall i, j :: 0 <= i < j < |listings| ==> listings[i].externalId != listings[j].externalId
  }

  // ---------------------------------------------------------------- details

  /** The columns of `listing_details` that a parsed detail page fills. */
  const DetailColumns: seq<string> := [
    "full_description", "financial_details", "years_in_business", "employees",
    "real_estate_included", "inventory_value", "training_included",
    "detailed_location", "reason_for_selling"]

  lemma DetailColumnsUnique()
    ensures forall a, b :: 0 <= a < b < |DetailColumns| ==> DetailColumns[a] != DetailColumns[b]
  {
  }

  /** A `listing_details` row. */
  datatype Detail = Detail(
    id: nat,
    listingId: nat,
    fullDescription: Value,
    financialDetails: Value,
    yearsInBusiness: Value,
    employees: Value,
    realEstateIncluded: Value,
    inventoryValue: Value,
    trainingIncluded: Value,
    detailedLocation: Value,
    reasonForSelling: Value,
    scrapedAt: nat,
    scrapeStatus: string)

  /** A detail row with every detail column NULL. */
  function EmptyDetail(id: nat, listingId: nat, now: nat, status: string): (d: Detail)
    ensures d.id == id && d.listingId == listingId && d.scrapedAt == now && d.scrapeStatus == status
    ensures forall c :: c in DetailColumns ==> DetailAttr(d, c) == Null
  {
    Detail(id, listingId, Null, Null, Null, Null, Null, Null, Null, Null, Null, now, status)
  }

  /** `getattr(detail, c)` for a detail column `c`. */
  function DetailAttr(d: Detail, c: string): Value
    requires c in DetailColumns
  {
    if c == "full_description" then d.fullDescription
    else if c == "financial_details" then d.financialDetails
    else if c == "years_in_business" then d.yearsInBusiness
    else if c == "employees" then d.employees
    else if c == "real_estate_included" then d.realEstateIncluded
    else if c == "inventory_value" then d.inventoryValue
    else if c == "training_included" then d.trainingIncluded
    else if c == "detailed_location" then d.detailedLocation
    else d.reasonForSelling
  }

  /** `setattr(detail, c, v)` for a detail column `c`; any other name changes nothing. */
  function SetDetailAttr(d: Detail, c: string, v: Value): (r: Detail)
    ensures c in DetailColumns ==> DetailAttr(r, c) == v
    ensures forall c' :: c' in DetailColumns && c' != c ==> DetailAttr(r, c') == DetailAttr(d, c')
    ensures c !in DetailColumns ==> r == d
    ensures r.id == d.id && r.listingId == d.listingId && r.scrapedAt == d.scrapedAt && r.scrapeStatus == d.scrapeStatus
  {
    if c == "full_description" then d.(fullDescription := v)
    else if c == "financial_details" then d.(financialDetails := v)
    else if c == "years_in_business" then d.(yearsInBusiness := v)
    else if c == "employees" then d.(employees := v)
    else if c == "real_estate_included" then d.(realEstateIncluded := v)
    else if c == "inventory_value" then d.(inventoryValue := v)
    else if c == "training_included" then d.(trainingIncluded := v)
    else if c == "detailed_location" then d.(detailedLocation := v)
    else if c == "reason_for_selling" then d.(reasonForSelling := v)
    else d
  }

  /** At most one detail row per listing. */
  ghost predicate OneDetailPerListing(details: seq<Detail>) {
    forall i, j :: 0 <= i < j < |details| ==> details[i].listingId != details[j].listingId
  }

  // ---------------------------------------------------------------- scrape runs

  /** The columns of `scrape_runs` that `update_scrape_run` may set. */
  const RunColumns: seq<string> := [
    "run_type", "started_at", "completed_at", "listings_found", "new_listings",
    "updated_listings", "detail_pages_scraped", "errors", "status", "error_message"]

  /** A `scrape_runs` row. */
  datatype ScrapeRun = ScrapeRun(
    id: nat,
    runType: Value,
    startedAt: Value,
    completedAt: Value,
    listingsFound: Value,
    newListings: Value,
    updatedListings: Value,
    detailPagesScraped: Value,
    errors: Value,
    status: Value,
    errorMessage: Value)

  /** A new run: "running", every counter 0, not completed. */
  function NewScrapeRun(id: nat, runType: string, now: nat): (run: ScrapeRun)
    ensures run.id == id && run.runType == Str(runType) && run.startedAt == Int(now)
    ensures run.status == Str("running") && run.completedAt == Null && run.errorMessage == Null
    ensures run.listingsFound == run.newListings == run.updatedListings == run.detailPagesScraped == run.errors == Int(0)
  {
    ScrapeRun(id, Str(runType), Int(now), Null, Int(0), Int(0), Int(0), Int(0), Int(0), Str("running"), Null)
  }

  /** `getattr(run, c)` for a settable run column `c`. */
  function RunAttr(run: ScrapeRun, c: string): Value
    requires c in RunColumns
  {
    if c == "run_type" then run.runType
    else if c == "started_at" then run.startedAt
    else if c == "completed_at" then run.completedAt
    else if c == "listings_found" then run.listingsFound
    else if c == "new_listings" then run.newListings
    else if c == "updated_listings" then run.updatedListings
    else if c == "detail_pages_scraped" then run.detailPagesScraped
    else if c == "errors" then run.errors
    else if c == "status" then run.status
    else run.errorMessage
  }

  /** `setattr(run, c, v)` when `hasattr(run, c)`; any other name changes nothing. */
  function SetRunAttr(run: ScrapeRun, c: string, v: Value): (r: ScrapeRun)
    ensures c in RunColumns ==> RunAttr(r, c) == v
    ensures forall c' :: c' in RunColumns && c' != c ==> RunAttr(r, c') == RunAttr(run, c')
    ensures c !in RunColumns ==> r == run
    ensures r.id == run.id
  {
    if c == "run_type" then run.(runType := v)
    else if c == "started_at" then run.(startedAt := v)
    else if c == "completed_at" then run.(completedAt := v)
    else if c == "listings_found" then run.(listingsFound := v)
    else if c == "new_listings" then run.(newListings := v)
    else if c == "updated_listings" then run.(updatedListings := v)
    else if c == "detail_pages_scraped" then run.(detailPagesScraped := v)
    else if c == "errors" then run.(errors := v)
    else if c == "status" then run.(status := v)
    else if c == "error_message" then run.(errorMessage := v)
    else run
  }

  // ---------------------------------------------------------------- queue

  datatype QueueStatus = Pending | Processing | Completed | Failed

  /** A `scraping_queue` row. */
  datatype QueueItem = QueueItem(
    id: nat,
    listingId: nat,
    priority: int,
    status: QueueStatus,
    retryCount: nat,
    errorMessage: Option<string>,
    createdAt: nat,
    processedAt: Option<nat>)

  /** A new queue row: pending, no retries, no error, not processed. */
  function NewQueueItem(id: nat, listingId: nat, priority: int, now: nat): (q: QueueItem)
    ensures q.status == Pending && q.retryCount == 0 && q.errorMessage.None? && q.processedAt.None?
    ensures q.id == id && q.listingId == listingId && q.priority == priority && q.createdAt == now
  {
    QueueItem(id, listingId, priority, Pending, 0, None, now, None)
  }

  /** At most one queue row per listing. */
  ghost predicate OneQueueItemPerListing(queue: seq<QueueItem>) {
    forall i, j :: 0 <= i < j < |queue| ==> queue[i].listingId != queue[j].listingId
  }

  // ---------------------------------------------------------------- content hash

  /** `sort_keys`: entries ordered by key. */
  predicate KeyBefore(x: (string, Value), y: (string, Value)) {
    LexLess(x.0, y.0)
  }

  lemma KeyBeforeIsStrictWeakOrder()
    ensures StrictWeakOrder(KeyBefore)
  {
    forall x: (string, Value), y: (string, Value) ensures KeyBefore(x, y) ==> !KeyBefore(y, x) {
      LexLessAsymmetric(x.0, y.0);
    }
    forall x: (string, Value), y: (string, Value), z: (string, Value)
      ensures KeyBefore(x, z) ==> KeyBefore(x, y) || KeyBefore(y, z)
    {
      LexLessNotAfterTransitive(x.0, y.0, z.0);
    }
  }

  /**
   * `compute_content_hash`: the digest of the dictionary serialised with its keys
   * sorted. `digest` stands for SHA-256 over the JSON text.
   */
  function ContentHash(digest: Dict -> string, data: Dict): string {
    digest(SortBy(data, KeyBefore))
  }

  /** The hash is the digest of a permutation of the data whose keys are in order. */
  lemma ContentHashSortsKeys(digest: Dict -> string, data: Dict)
    ensures exists sorted ::
      (ContentHash(digest, data) == digest(sorted) && multiset(sorted) == multiset(data) && SortedBy(sorted, KeyBefore))
  {
    KeyBeforeIsStrictWeakOrder();
    SortBySorted(data, KeyBefore);
  }

  /**
   * The hash depends only on the key/value content: two dictionaries with the same
   * entries, in whatever insertion order, hash alike.
   */
  lemma ContentHashIgnoresOrder(digest: Dict -> string, a: Dict, b: Dict)
    requires UniqueKeys(a)
    requires multiset(a) == multiset(b)
    ensures ContentHash(digest, a) == ContentHash(digest, b)
  {
    KeyBeforeIsStrictWeakOrder();
    var sa := SortBy(a, KeyBefore);
    var sb := SortBy(b, KeyBefore);
    SortBySorted(a, KeyBefore);
    SortBySorted(b, KeyBefore);
    forall i, j | 0 <= i < |sa| && 0 <= j < |sa| && sa[i] != sa[j]
      ensures KeyBefore(sa[i], sa[j]) || KeyBefore(sa[j], sa[i])
    {
      assert sa[i] in multiset(a) && sa[j] in multiset(a);
      var p :| 0 <= p < |a| && a[p] == sa[i];
      var q :| 0 <= q < |a| && a[q] == sa[j];
      assert p != q;
      assert sa[i].0 != sa[j].0;
      LexLessTotal(sa[i].0, sa[j].0);
    }
    SortedUnique(sa, sb, KeyBefore);
  }
}
