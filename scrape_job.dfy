/**
 * The two scheduled passes over the store: the search pass walks the result pages,
 * upserts every listing and queues new and changed ones for a detail fetch; the
 * details pass works through a batch of the queue. Fetching is an oracle parameter
 * (a page or an error message), and the search pass runs on fuel, since nothing in
 * the pagination bounds it.
 */
module ScrapeJob {
  import opened Wrappers
  import opened Json
  import opened Text
  import opened Database
  import opened BizBuySell
  import opened BizBuySellDetail
  import opened ListingService
  import opened Sorting

  /** The retiring-owner search the pass starts from. */
  const TargetUrl: Url := Url("https://www.bizbuysell.com/retiring-owner-businesses-for-sale/?q=bGM9SmtjOU16QW1RejFWVXlaVFBWUk9KbFE5TXpVNE9UVS9Ka2M5TXpBbVF6MVZVeVpUUFZSWUpsUTlOVE14Tmo4bVJ6MHpNQ1pEUFZWVEpsTTlWRmdtVkQwMk1EWXlQeVpIUFRNd0prTTlWVk1tVXoxVVRpWlVQVFk0TURNPQ%3D%3D", None)

  const NewListingPriority: int := 10
  const ChangedListingPriority: int := 5

  /** What a fetched search page offers: its listing cards and its pagination link. */
  datatype SearchPage = SearchPage(cards: seq<Card>, nextHref: Option<string>)

  // ---------------------------------------------------------------- one listing

  function OptInt(o: Option<int>): Value {
    if o.Some? then Int(o.value) else Null
  }

  /** The keys of the dictionary `_extract_listing_from_element` builds, in its order. */
  const SummaryKeys: seq<string> :=
    [ "external_id", "title", "business_category", "asking_price", "asking_price_raw",
      "location_city", "location_state", "location_raw", "revenue", "cash_flow",
      "seller_reason_raw", "url", "is_retirement_listing" ]

  function SummaryValues(s: Summary): (vs: seq<Value>)
    ensures |vs| == |SummaryKeys|
  {
    [ Str(s.externalId), Str(s.title), Str(s.category), OptInt(s.askingPrice), Str(s.askingPriceRaw),
      Str(s.city), Str(s.state), Str(s.locationRaw), Str(s.revenue), Str(s.cashFlow),
      Str(s.sellerReasonRaw), Str(s.url), Bool(s.isRetirement) ]
  }

  /** The dictionary `_extract_listing_from_element` hands to the store. */
  function SummaryData(s: Summary): (d: Dict)
    ensures Keys(d) == ["external_id"] + ListingColumns
    ensures d[0] == ("external_id", Str(s.externalId))
    ensures forall j :: 0 <= j < |d| && d[j].1 == Null ==> d[j].0 == "asking_price"
  {
    var d := Entries(SummaryKeys, SummaryValues(s));
    forall j | 0 <= j < |d| ensures d[j] == (SummaryKeys[j], SummaryValues(s)[j]) {
      EntriesAt(SummaryKeys, SummaryValues(s), j);
    }
    assert Keys(d) == SummaryKeys;
    d
  }

  /** A summary's dictionary fills every NOT NULL column of a new row. */
  lemma SummaryFillsRequired(s: Summary)
    ensures !MissesRequired(NewListingData(SummaryData(s)))
  {
    var d := SummaryData(s);
    var row := NewListingData(d);
    forall i | 0 <= i < |row| && row[i].0 in RequiredListingColumns ensures row[i].1 != Null {
      var k := row[i].0;
      assert k != "asking_price";
      assert k == Keys(row)[i] == Keys(d)[i + 1];
      assert HasKey(d, k) by { assert d[i + 1].0 == k; }
      GetFound(d, k);
      var j :| 0 <= j < |d| && d[j] == (k, row[i].1);
    }
  }

  /**
   * Storing a listing taken from a search page never raises, provided it has an
   * external id (an empty one is what `save_or_update_listing` rejects).
   */
  lemma SummaryUpsertSucceeds(listings: seq<Listing>, snapshots: seq<Snapshot>, s: Summary, hash: string, now: nat)
    requires forall i :: 0 <= i < |listings| ==> Keys(listings[i].data) == ListingColumns
    requires s.externalId != []
    ensures Upsert(listings, snapshots, SummaryData(s), hash, now).result.Ok?
  {
    var d := SummaryData(s);
    GetAtFirst(d, "external_id", 0);
    SummaryFillsRequired(s);
  }

  /** How storing one listing went. */
  datatype Saved = Inserted(id: nat) | Changed(id: nat) | Kept(id: nat) | Raised(message: string)

  function SavedOf(r: Result<(nat, bool, bool)>): Saved {
    match r
    case Err(m) => Raised(m)
    case Ok((id, isNew, isUpdated)) => if isNew then Inserted(id) else if isUpdated then Changed(id) else Kept(id)
  }

  /** The queue after a listing was stored: new at priority 10, changed at 5, else untouched. */
  function QueuedAfter(queue: seq<QueueItem>, s: Saved, now: nat): seq<QueueItem> {
    match s
    case Inserted(id) => Enqueue(queue, id, NewListingPriority, now)
    case Changed(id) => Enqueue(queue, id, ChangedListingPriority, now)
    case _ => queue
  }

  /** The tables the search pass writes, and the clock. */
  datatype Tables = Tables(listings: seq<Listing>, snapshots: seq<Snapshot>, queue: seq<QueueItem>, clock: nat)

  function TablesOf(store: Store): Tables
    reads store
  {
    Tables(store.listings, store.snapshots, store.queue, store.clock)
  }

  /**
   * Storing one listing and queueing it when it is new or changed: the outcome and
   * the tables after. Each of the two service calls reads the clock once. Without an
   * external id it raises a ValueError; otherwise it raises only for a new row that
   * misses a NOT NULL column. The listings table grows by a new row and the snapshots
   * table by a new or changed one.
   */
  function SaveStep(digest: Dict -> string, t: Tables, data: Dict): (r: (Saved, Tables))
    requires ListingsWellFormed(t.listings)
    ensures ListingsWellFormed(r.1.listings)
    ensures !Truthy(At(data, "external_id")) ==> r.0 == Raised("ValueError")
    ensures r.0.Raised? ==> !Truthy(At(data, "external_id")) || MissesRequired(NewListingData(data))
    ensures |r.1.listings| == |t.listings| + (if r.0.Inserted? then 1 else 0)
    ensures |r.1.snapshots| == |t.snapshots| + (if r.0.Inserted? || r.0.Changed? then 1 else 0)
  {
    var u := Upsert(t.listings, t.snapshots, data, ContentHash(digest, data), t.clock);
    UpsertKeepsListingsWellFormed(t.listings, t.snapshots, data, ContentHash(digest, data), t.clock);
    var s := SavedOf(u.result);
    (s, Tables(u.listings, u.snapshots, QueuedAfter(t.queue, s, t.clock + 1),
               if s.Inserted? || s.Changed? then t.clock + 2 else t.clock + 1))
  }

  predicate IsInserted(s: Saved) { s.Inserted? }
  predicate IsChanged(s: Saved) { s.Changed? }
  predicate IsKept(s: Saved) { s.Kept? }
  predicate IsRaised(s: Saved) { s.Raised? }

  /** The number of outcomes that satisfy `p`. */
  function CountOf(saves: seq<Saved>, p: Saved -> bool): (n: nat)
    ensures n <= |saves|
  {
    if saves == [] then 0
    else CountOf(saves[..|saves| - 1], p) + (if p(saves[|saves| - 1]) then 1 else 0)
  }

  lemma {:induction false} CountOfAppend(a: seq<Saved>, b: seq<Saved>, p: Saved -> bool)
    ensures CountOf(a + b, p) == CountOf(a, p) + CountOf(b, p)
    decreases |b|
  {
    if b == [] {
      assert a + b == a;
    } else {
      var b' := b[..|b| - 1];
      CountOfAppend(a, b', p);
      assert (a + b)[..|a + b| - 1] == a + b';
    }
  }

  /** Every stored listing is exactly one of inserted, changed, kept or raised. */
  lemma {:induction false} CountsPartition(saves: seq<Saved>)
    ensures CountOf(saves, IsInserted) + CountOf(saves, IsChanged) + CountOf(saves, IsKept) + CountOf(saves, IsRaised) == |saves|
  {
    if saves != [] {
      CountsPartition(saves[..|saves| - 1]);
    }
  }

  /**
   * The dictionaries `datas`, stored one after another from the tables `t`: the
   * outcome of each and the tables after. Each raises as SaveStep says; the listings
   * table grows by the inserted ones and the snapshots table by the inserted and
   * changed ones.
   */
  function SaveAll(digest: Dict -> string, t: Tables, datas: seq<Dict>): (r: (seq<Saved>, Tables))
    requires ListingsWellFormed(t.listings)
    ensures ListingsWellFormed(r.1.listings)
    ensures |r.0| == |datas|
    ensures |r.1.listings| == |t.listings| + CountOf(r.0, IsInserted)
    ensures |r.1.snapshots| == |t.snapshots| + CountOf(r.0, IsInserted) + CountOf(r.0, IsChanged)
    decreases |datas|
  {
    if datas == [] then ([], t)
    else
      var prev := SaveAll(digest, t, datas[..|datas| - 1]);
      var step := SaveStep(digest, prev.1, datas[|datas| - 1]);
      assert (prev.0 + [step.0])[..|prev.0|] == prev.0;
      (prev.0 + [step.0], step.1)
  }

  /**
   * Each dictionary raises as SaveStep says: a ValueError without an external id, and
   * otherwise only for a new row that misses a NOT NULL column.
   */
  lemma {:induction false} SaveAllRaises(digest: Dict -> string, t: Tables, datas: seq<Dict>, k: nat)
    requires ListingsWellFormed(t.listings) && k < |datas|
    ensures var saved := SaveAll(digest, t, datas).0[k];
      && (!Truthy(At(datas[k], "external_id")) ==> saved == Raised("ValueError"))
      && (saved.Raised? ==> !Truthy(At(datas[k], "external_id")) || MissesRequired(NewListingData(datas[k])))
    decreases |datas|
  {
    var prev := SaveAll(digest, t, datas[..|datas| - 1]);
    if k < |datas| - 1 {
      SaveAllRaises(digest, t, datas[..|datas| - 1], k);
      assert SaveAll(digest, t, datas).0[k] == prev.0[k];
    }
  }

  /** The dictionaries of a page's listings. */
  function SummaryDatas(ls: seq<Summary>): (ds: seq<Dict>)
    ensures |ds| == |ls|
  {
    if ls == [] then [] else [SummaryData(ls[0])] + SummaryDatas(ls[1..])
  }

  /** The dictionary at each position is that of the listing there. */
  lemma {:induction false} SummaryDatasAt(ls: seq<Summary>, k: nat)
    requires k < |ls|
    ensures SummaryDatas(ls)[k] == SummaryData(ls[k])
  {
    if k > 0 {
      SummaryDatasAt(ls[1..], k - 1);
    }
  }

  /** A summary's dictionary has a usable external id exactly when the summary has a non-empty one. */
  lemma SummaryIdTruthy(s: Summary)
    ensures Truthy(At(SummaryData(s), "external_id")) <==> s.externalId != []
  {
    GetAtFirst(SummaryData(s), "external_id", 0);
  }

  /** Storing the listings of a search page raises exactly for those with an empty external id. */
  lemma SummariesRaise(digest: Dict -> string, t: Tables, ls: seq<Summary>, k: nat)
    requires ListingsWellFormed(t.listings) && k < |ls|
    ensures SaveAll(digest, t, SummaryDatas(ls)).0[k].Raised? <==> ls[k].externalId == []
  {
    SaveAllRaises(digest, t, SummaryDatas(ls), k);
    SummaryDatasRaise(ls, k);
  }

  /** The dictionary of a found listing has a usable external id when the listing does, and fills every NOT NULL column. */
  lemma SummaryDatasRaise(ls: seq<Summary>, k: nat)
    requires k < |ls|
    ensures Truthy(At(SummaryDatas(ls)[k], "external_id")) <==> ls[k].externalId != []
    ensures !MissesRequired(NewListingData(SummaryDatas(ls)[k]))
  {
    SummaryDatasAt(ls, k);
    SummaryIdTruthy(ls[k]);
    SummaryFillsRequired(ls[k]);
  }

  /** SaveStep, spelled out: the upsert at the clock, then the queue at the next reading. */
  lemma SaveStepIs(digest: Dict -> string, t: Tables, data: Dict)
    requires ListingsWellFormed(t.listings)
    ensures var u := Upsert(t.listings, t.snapshots, data, ContentHash(digest, data), t.clock);
      var s := SavedOf(u.result);
      SaveStep(digest, t, data) == (s, Tables(u.listings, u.snapshots, QueuedAfter(t.queue, s, t.clock + 1),
                                              if s.Inserted? || s.Changed? then t.clock + 2 else t.clock + 1))
  {
  }

  /** The body of the inner loop of `run_search_scrape`: store one listing, queue it if needed. */
  method SaveAndQueue(store: Store, data: Dict) returns (s: Saved)
    requires store.Valid()
    modifies store
    ensures store.Valid()
    ensures (s, TablesOf(store)) == SaveStep(store.digest, old(TablesOf(store)), data)
    ensures store.details == old(store.details) && store.runs == old(store.runs)
  {
    SaveStepIs(store.digest, TablesOf(store), data);
    var r := store.SaveOrUpdateListing(data);
    s := SavedOf(r);
    match s {
      case Inserted(id) => store.QueueListingForDetails(id, NewListingPriority);
      case Changed(id) => store.QueueListingForDetails(id, ChangedListingPriority);
      case _ =>
    }
  }

  /** After a new or changed listing is stored, its queue row is armed with at least its priority. */
  lemma QueuedAfterArms(queue: seq<QueueItem>, s: Saved, now: nat)
    requires OneQueueItemPerListing(queue)
    requires s.Inserted? || s.Changed?
    ensures var r := QueuedAfter(queue, s, now);
      && FindQueueItem(r, s.id).Some?
      && r[FindQueueItem(r, s.id).value].status in {Pending, Processing}
      && r[FindQueueItem(r, s.id).value].priority >= (if s.Inserted? then NewListingPriority else ChangedListingPriority)
  {
    EnqueueArmsListing(queue, s.id, if s.Inserted? then NewListingPriority else ChangedListingPriority, now);
  }

  // ---------------------------------------------------------------- the search pass

  /** The counters of a search run. */
  datatype Counts = Counts(found: nat, inserted: nat, changed: nat, errors: nat)

  /** The counters after listings with the outcomes `saves` were stored. */
  function Added(c: Counts, saves: seq<Saved>): Counts {
    Counts(c.found, c.inserted + CountOf(saves, IsInserted), c.changed + CountOf(saves, IsChanged),
           c.errors + CountOf(saves, IsRaised))
  }

  /** Adding two runs of outcomes one after the other adds their concatenation. */
  lemma AddedAppend(c: Counts, a: seq<Saved>, b: seq<Saved>)
    ensures Added(Added(c, a), b) == Added(c, a + b)
  {
    CountOfAppend(a, b, IsInserted);
    CountOfAppend(a, b, IsChanged);
    CountOfAppend(a, b, IsRaised);
  }

  /**
   * The counts of a walk over `found` listings with outcomes `a`, then of a page of `more`
   * listings with outcomes `b`: those of a walk over all of them with outcomes `a + b`.
   */
  lemma AddedPage(found: nat, more: nat, a: seq<Saved>, b: seq<Saved>, counts: Counts, counts': Counts)
    requires counts == Added(Counts(found, 0, 0, 0), a)
    requires counts' == Added(counts.(found := counts.found + more), b)
    ensures counts' == Added(Counts(found + more, 0, 0, 0), a + b)
  {
    AddedAppend(Counts(found + more, 0, 0, 0), a, b);
  }

  /** What one stored listing adds to the counters: a new, updated or error count, or nothing when kept. */
  function Tallied(c: Counts, s: Saved): (r: Counts)
    ensures r == Added(c, [s])
    ensures r.found == c.found
    ensures r.inserted + r.changed + r.errors == c.inserted + c.changed + c.errors + (if s.Kept? then 0 else 1)
  {
    assert [s][..0] == [];
    match s
    case Inserted(_) => c.(inserted := c.inserted + 1)
    case Changed(_) => c.(changed := c.changed + 1)
    case Kept(_) => c
    case Raised(_) => c.(errors := c.errors + 1)
  }

  /** The listings `parse_search_results` yields for the page at `u`; none when the fetch failed. */
  function ListingsAt(fetch: Url -> Result<SearchPage>, resolveHref: string -> string, u: Url): seq<Summary> {
    match fetch(u)
    case Ok(page) => ExtractAll(FirstOccurrences(page.cards, |page.cards|), resolveHref)
    case Err(_) => []
  }

  /** The listings found over the fetched pages, page after page. */
  function FoundListings(fetch: Url -> Result<SearchPage>, resolveHref: string -> string, urls: seq<Url>): seq<Summary> {
    if urls == [] then []
    else FoundListings(fetch, resolveHref, urls[..|urls| - 1]) + ListingsAt(fetch, resolveHref, urls[|urls| - 1])
  }

  /**
   * The pages at `urls`, their listings stored page after page from the tables `t`:
   * the outcome of every listing found, in order, and the tables after. The listings
   * table grows by the inserted ones and the snapshots table by the inserted and
   * changed ones.
   */
  function SaveWalk(digest: Dict -> string, fetch: Url -> Result<SearchPage>, resolveHref: string -> string,
                    t: Tables, urls: seq<Url>): (r: (seq<Saved>, Tables))
    requires ListingsWellFormed(t.listings)
    ensures ListingsWellFormed(r.1.listings)
    ensures |r.0| == |FoundListings(fetch, resolveHref, urls)|
    ensures |r.1.listings| == |t.listings| + CountOf(r.0, IsInserted)
    ensures |r.1.snapshots| == |t.snapshots| + CountOf(r.0, IsInserted) + CountOf(r.0, IsChanged)
  {
    if urls == [] then ([], t)
    else
      var prev := SaveWalk(digest, fetch, resolveHref, t, urls[..|urls| - 1]);
      var page := SaveAll(digest, prev.1, SummaryDatas(ListingsAt(fetch, resolveHref, urls[|urls| - 1])));
      CountOfAppend(prev.0, page.0, IsInserted);
      CountOfAppend(prev.0, page.0, IsChanged);
      (prev.0 + page.0, page.1)
  }

  /** Over a whole walk, a listing found raises exactly when its external id is empty. */
  lemma {:induction false} SaveWalkRaises(digest: Dict -> string, fetch: Url -> Result<SearchPage>, resolveHref: string -> string,
                                          t: Tables, urls: seq<Url>, k: nat)
    requires ListingsWellFormed(t.listings) && k < |FoundListings(fetch, resolveHref, urls)|
    ensures SaveWalk(digest, fetch, resolveHref, t, urls).0[k].Raised?
        <==> FoundListings(fetch, resolveHref, urls)[k].externalId == []
    decreases |urls|
  {
    var init := urls[..|urls| - 1];
    var prev := SaveWalk(digest, fetch, resolveHref, t, init);
    var found := FoundListings(fetch, resolveHref, init);
    var page := ListingsAt(fetch, resolveHref, urls[|urls| - 1]);
    if k < |found| {
      SaveWalkRaises(digest, fetch, resolveHref, t, init, k);
    } else {
      SummariesRaise(digest, prev.1, page, k - |found|);
    }
  }

  /** `find_next_page_url` on the page fetched from `u`. */
  function NextOf(fetch: Url -> Result<SearchPage>, resolveNext: string -> Url, u: Url): NextPage {
    match fetch(u)
    case Ok(page) => FindNextPage(page.nextHref, u, resolveNext)
    case Err(_) => PageParamError
  }

  /** `v` is the page the search goes to after the page at `u`. */
  predicate Follows(fetch: Url -> Result<SearchPage>, resolveNext: string -> Url, u: Url, v: Url) {
    fetch(u).Ok? && NextOf(fetch, resolveNext, u) == Next(v)
  }

  /** The pages a search visits: from the target, each the successor of the one before, none twice. */
  predicate IsWalk(fetch: Url -> Result<SearchPage>, resolveNext: string -> Url, urls: seq<Url>) {
    && (urls != [] ==> urls[0] == TargetUrl)
    && (forall i :: 0 <= i < |urls| - 1 ==> Follows(fetch, resolveNext, urls[i], urls[i + 1]))
    && (forall i, j :: 0 <= i < j < |urls| ==> urls[i] != urls[j])
  }

  /** How a search pass ended, and when the run row was closed. */
  datatype SearchEnd = Finished(at: nat) | Aborted(message: string, at: nat) | OutOfFuel

  function CompletedSearchStats(c: Counts, now: nat): Dict {
    [ ("listings_found", Int(c.found)), ("new_listings", Int(c.inserted)),
      ("updated_listings", Int(c.changed)), ("errors", Int(c.errors)),
      ("status", Str("completed")), ("completed_at", Int(now)) ]
  }

  function FailedStats(errors: nat, message: string, now: nat): Dict {
    [ ("errors", Int(errors + 1)), ("status", Str("failed")),
      ("error_message", Str(message)), ("completed_at", Int(now)) ]
  }

  /** The statistics of a completed search run name each column once. */
  lemma CompletedSearchKeysUnique(c: Counts, now: nat)
    ensures UniqueKeys(CompletedSearchStats(c, now))
  {
  }

  /** A completed search run records its counters, its status and its end. */
  lemma CompletedSearchSets(run: ScrapeRun, c: Counts, now: nat)
    ensures var r := ApplyRunStats(run, CompletedSearchStats(c, now));
      && r.listingsFound == Int(c.found) && r.newListings == Int(c.inserted)
      && r.updatedListings == Int(c.changed) && r.errors == Int(c.errors)
      && r.status == Str("completed") && r.completedAt == Int(now)
  {
    var s := CompletedSearchStats(c, now);
    CompletedSearchKeysUnique(c, now);
    ApplyRunStatsAt(run, s, 0);
    ApplyRunStatsAt(run, s, 1);
    ApplyRunStatsAt(run, s, 2);
    ApplyRunStatsAt(run, s, 3);
    ApplyRunStatsAt(run, s, 4);
    ApplyRunStatsAt(run, s, 5);
  }

  /** A completed search run keeps the columns its statistics do not name. */
  lemma CompletedSearchKeeps(run: ScrapeRun, c: Counts, now: nat)
    ensures var r := ApplyRunStats(run, CompletedSearchStats(c, now));
      && r.id == run.id && r.runType == run.runType && r.startedAt == run.startedAt
      && r.detailPagesScraped == run.detailPagesScraped && r.errorMessage == run.errorMessage
  {
    var s := CompletedSearchStats(c, now);
    CompletedSearchKeysUnique(c, now);
    ApplyRunStatsUnnamed(run, s, "run_type");
    ApplyRunStatsUnnamed(run, s, "started_at");
    ApplyRunStatsUnnamed(run, s, "detail_pages_scraped");
    ApplyRunStatsUnnamed(run, s, "error_message");
  }

  /** A completed search run records its counters. */
  lemma CompletedSearchRecorded(run: ScrapeRun, c: Counts, now: nat)
    ensures var r := ApplyRunStats(run, CompletedSearchStats(c, now));
      && r.id == run.id && r.runType == run.runType && r.startedAt == run.startedAt
      && r.listingsFound == Int(c.found) && r.newListings == Int(c.inserted)
      && r.updatedListings == Int(c.changed) && r.errors == Int(c.errors)
      && r.status == Str("completed") && r.completedAt == Int(now)
      && r.detailPagesScraped == run.detailPagesScraped && r.errorMessage == run.errorMessage
  {
    CompletedSearchSets(run, c, now);
    CompletedSearchKeeps(run, c, now);
  }

  /** The statistics of a failed run name each column once. */
  lemma FailedKeysUnique(errors: nat, message: string, now: nat)
    ensures UniqueKeys(FailedStats(errors, message, now))
  {
  }

  /** A failed run records one error more than counted, its status, the message and its end. */
  lemma FailedSets(run: ScrapeRun, errors: nat, message: string, now: nat)
    ensures var r := ApplyRunStats(run, FailedStats(errors, message, now));
      && r.errors == Int(errors + 1) && r.status == Str("failed")
      && r.errorMessage == Str(message) && r.completedAt == Int(now)
  {
    var s := FailedStats(errors, message, now);
    FailedKeysUnique(errors, message, now);
    ApplyRunStatsAt(run, s, 0);
    ApplyRunStatsAt(run, s, 1);
    ApplyRunStatsAt(run, s, 2);
    ApplyRunStatsAt(run, s, 3);
  }

  /** A failed run does not write the counters of listings found, new and updated. */
  lemma FailedKeeps(run: ScrapeRun, errors: nat, message: string, now: nat)
    ensures var r := ApplyRunStats(run, FailedStats(errors, message, now));
      && r.id == run.id && r.runType == run.runType && r.startedAt == run.startedAt
      && r.listingsFound == run.listingsFound && r.newListings == run.newListings
      && r.updatedListings == run.updatedListings && r.detailPagesScraped == run.detailPagesScraped
  {
    var s := FailedStats(errors, message, now);
    FailedKeysUnique(errors, message, now);
    ApplyRunStatsUnnamed(run, s, "run_type");
    ApplyRunStatsUnnamed(run, s, "started_at");
    ApplyRunStatsUnnamed(run, s, "listings_found");
    ApplyRunStatsUnnamed(run, s, "new_listings");
    ApplyRunStatsUnnamed(run, s, "updated_listings");
    ApplyRunStatsUnnamed(run, s, "detail_pages_scraped");
  }

  /**
   * A failed run records one error more than counted and the message; the counters of
   * listings found, new and updated are not written.
   */
  lemma FailedRecorded(run: ScrapeRun, errors: nat, message: string, now: nat)
    ensures var r := ApplyRunStats(run, FailedStats(errors, message, now));
      && r.id == run.id && r.runType == run.runType && r.startedAt == run.startedAt
      && r.errors == Int(errors + 1) && r.status == Str("failed")
      && r.errorMessage == Str(message) && r.completedAt == Int(now)
      && r.listingsFound == run.listingsFound && r.newListings == run.newListings
      && r.updatedListings == run.updatedListings && r.detailPagesScraped == run.detailPagesScraped
  {
    FailedSets(run, errors, message, now);
    FailedKeeps(run, errors, message, now);
  }

  /**
   * The loop over the dictionaries of one page's listings: the tables are those of
   * storing them one after another, and the counters add the new, updated and raising ones.
   */
  method SavePage(store: Store, datas: seq<Dict>, before: Counts) returns (after: Counts)
    requires store.Valid()
    modifies store
    ensures store.Valid()
    ensures var (saves, t) := SaveAll(store.digest, old(TablesOf(store)), datas);
      TablesOf(store) == t && after == Added(before, saves)
    ensures store.details == old(store.details) && store.runs == old(store.runs)
  {
    after := before;
    ghost var saves: seq<Saved> := [];
    var k := 0;
    while k < |datas|
      invariant 0 <= k <= |datas|
      invariant store.Valid()
      invariant (saves, TablesOf(store)) == SaveAll(store.digest, old(TablesOf(store)), datas[..k])
      invariant after == Added(before, saves)
      invariant store.details == old(store.details) && store.runs == old(store.runs)
    {
      assert datas[..k + 1][..k] == datas[..k];
      var s := SaveAndQueue(store, datas[k]);
      AddedAppend(before, saves, [s]);
      saves := saves + [s];
      after := Tallied(after, s);
      k := k + 1;
    }
    assert datas[..k] == datas;
  }

  /** Where the walk goes after the page at `u`: the next URL, or the message of what was raised. */
  function StepFrom(fetch: Url -> Result<SearchPage>, resolveNext: string -> Url, u: Url): (r: Result<Url>)
    ensures r.Ok? <==> fetch(u).Ok? && NextOf(fetch, resolveNext, u).Next?
    ensures r.Ok? ==> Follows(fetch, resolveNext, u, r.value)
    ensures fetch(u).Err? ==> r == Err(fetch(u).message)
    ensures fetch(u).Ok? && !r.Ok? ==> r == Err(IntLiteralError(u.page.GetOr("1")))
  {
    match fetch(u)
    case Err(m) => Err(m)
    case Ok(page) =>
      match FindNextPage(page.nextHref, u, resolveNext)
      case Next(v) => Ok(v)
      case _ => Err(IntLiteralError(u.page.GetOr("1")))
  }

  /**
   * The tables `t1` and the counts `after` are those left by storing the listings `ls`
   * in order into the tables `t0`, counted from `before`.
   */
  predicate PageStored(digest: Dict -> string, t0: Tables, t1: Tables, ls: seq<Summary>, before: Counts, after: Counts)
    requires ListingsWellFormed(t0.listings)
  {
    var page := SaveAll(digest, t0, SummaryDatas(ls));
    t1 == page.1 && after == Added(before.(found := before.found + |ls|), page.0)
  }

  /** The listings of one fetched results page, stored in order and counted. */
  method StoreResults(store: Store, cards: seq<Card>, resolveHref: string -> string, before: Counts)
    returns (after: Counts, found: seq<Summary>)
    requires store.Valid()
    modifies store
    ensures store.Valid()
    ensures store.details == old(store.details) && store.runs == old(store.runs)
    ensures found == ExtractAll(FirstOccurrences(cards, |cards|), resolveHref)
    ensures PageStored(store.digest, old(TablesOf(store)), TablesOf(store), found, before, after)
  {
    found := ParseSearchResults(cards, resolveHref);
    after := SavePage(store, SummaryDatas(found), before.(found := before.found + |found|));
  }

  /** One iteration of the outer loop of `run_search_scrape`: fetch, store, find the next page. */
  method VisitPage(store: Store, fetch: Url -> Result<SearchPage>, resolveHref: string -> string,
                   resolveNext: string -> Url, u: Url, before: Counts)
    returns (after: Counts, step: Result<Url>)
    requires store.Valid()
    modifies store
    ensures store.Valid()
    ensures store.details == old(store.details) && store.runs == old(store.runs)
    ensures step == StepFrom(fetch, resolveNext, u)
    ensures PageStored(store.digest, old(TablesOf(store)), TablesOf(store), ListingsAt(fetch, resolveHref, u), before, after)
  {
    var page := fetch(u);
    if page.Err? {
      assert SummaryDatas(ListingsAt(fetch, resolveHref, u)) == [];
      return before, Err(page.message);
    }
    var listings;
    after, listings := StoreResults(store, page.value.cards, resolveHref, before);
    var following := FindNextPage(page.value.nextHref, u, resolveNext);
    if following.Next? {
      step := Ok(following.url);
    } else {
      step := Err(IntLiteralError(u.page.GetOr("1")));
    }
  }

  /**
   * The tables `t1` and the counts `counts` are those left by storing every listing found
   * on the pages at `urls`, page after page, into the tables `t0`.
   */
  predicate WalkStored(digest: Dict -> string, fetch: Url -> Result<SearchPage>, resolveHref: string -> string,
                       t0: Tables, t1: Tables, urls: seq<Url>, counts: Counts)
    requires ListingsWellFormed(t0.listings)
  {
    var walk := SaveWalk(digest, fetch, resolveHref, t0, urls);
    t1 == walk.1 && counts == Added(Counts(|FoundListings(fetch, resolveHref, urls)|, 0, 0, 0), walk.0)
  }

  /** A walk one page longer stores that page's listings after the others. */
  lemma SaveWalkStep(digest: Dict -> string, fetch: Url -> Result<SearchPage>, resolveHref: string -> string,
                     t0: Tables, urls: seq<Url>, next: Url)
    requires ListingsWellFormed(t0.listings)
    ensures var prev := SaveWalk(digest, fetch, resolveHref, t0, urls);
      var stored := SaveAll(digest, prev.1, SummaryDatas(ListingsAt(fetch, resolveHref, next)));
      SaveWalk(digest, fetch, resolveHref, t0, urls + [next]) == (prev.0 + stored.0, stored.1)
  {
    assert (urls + [next])[..|urls|] == urls;
  }

  /** Storing the listings of one more page extends a stored walk by that page. */
  lemma WalkStoredStep(digest: Dict -> string, fetch: Url -> Result<SearchPage>, resolveHref: string -> string,
                       t0: Tables, t1: Tables, t2: Tables, urls: seq<Url>, next: Url, counts: Counts, counts': Counts)
    requires ListingsWellFormed(t0.listings) && ListingsWellFormed(t1.listings)
    requires WalkStored(digest, fetch, resolveHref, t0, t1, urls, counts)
    requires PageStored(digest, t1, t2, ListingsAt(fetch, resolveHref, next), counts, counts')
    ensures WalkStored(digest, fetch, resolveHref, t0, t2, urls + [next], counts')
  {
    SaveWalkStep(digest, fetch, resolveHref, t0, urls, next);
    FoundListingsStep(fetch, resolveHref, urls, next);
    AddedPage(|FoundListings(fetch, resolveHref, urls)|, |ListingsAt(fetch, resolveHref, next)|,
              SaveWalk(digest, fetch, resolveHref, t0, urls).0,
              SaveAll(digest, t1, SummaryDatas(ListingsAt(fetch, resolveHref, next))).0, counts, counts');
  }

  /** One more page of the walk: visited, stored and counted after the pages before it. */
  method Advance(store: Store, fetch: Url -> Result<SearchPage>, resolveHref: string -> string,
                 resolveNext: string -> Url, ghost start: Tables, fetched: seq<Url>, next: Url, counts: Counts)
    returns (counts': Counts, step: Result<Url>)
    requires store.Valid() && ListingsWellFormed(start.listings)
    requires WalkStored(store.digest, fetch, resolveHref, start, TablesOf(store), fetched, counts)
    modifies store
    ensures store.Valid()
    ensures store.details == old(store.details) && store.runs == old(store.runs)
    ensures step == StepFrom(fetch, resolveNext, next)
    ensures WalkStored(store.digest, fetch, resolveHref, start, TablesOf(store), fetched + [next], counts')
  {
    counts', step := VisitPage(store, fetch, resolveHref, resolveNext, next, counts);
    WalkStoredStep(store.digest, fetch, resolveHref, start, old(TablesOf(store)), TablesOf(store), fetched, next, counts, counts');
  }

  /** A walk extended by the page it leads to, not visited yet, is still a walk. */
  lemma WalkExtends(fetch: Url -> Result<SearchPage>, resolveNext: string -> Url, walked: seq<Url>, next: Url)
    requires IsWalk(fetch, resolveNext, walked)
    requires next !in walked
    requires walked == [] ==> next == TargetUrl
    requires walked != [] ==> Follows(fetch, resolveNext, walked[|walked| - 1], next)
    ensures IsWalk(fetch, resolveNext, walked + [next])
  {
    var w := walked + [next];
    forall i | 0 <= i < |w| - 1 ensures Follows(fetch, resolveNext, w[i], w[i + 1]) {
      if i < |walked| - 1 {
        assert w[i] == walked[i] && w[i + 1] == walked[i + 1];
      }
    }
    forall i, j | 0 <= i < j < |w| ensures w[i] != w[j] {
      if j < |walked| {
        assert w[i] == walked[i] && w[j] == walked[j];
      } else {
        assert w[i] in walked;
      }
    }
  }

  /** Fetching one more page adds the listings found on it. */
  lemma FoundListingsStep(fetch: Url -> Result<SearchPage>, resolveHref: string -> string, walked: seq<Url>, next: Url)
    ensures FoundListings(fetch, resolveHref, walked + [next])
         == FoundListings(fetch, resolveHref, walked) + ListingsAt(fetch, resolveHref, next)
  {
    assert (walked + [next])[..|walked|] == walked;
  }

  /** The set of visited URLs grows by the page just fetched. */
  lemma VisitedStep(walked: seq<Url>, next: Url)
    ensures (set u | u in walked + [next]) == (set u | u in walked) + {next}
  {
  }

  /** The statistics the search pass writes when it leaves its loop, with or without an exception. */
  function SearchStats(counts: Counts, failure: Option<string>, now: nat): Dict {
    if failure.Some? then FailedStats(counts.errors, failure.value, now) else CompletedSearchStats(counts, now)
  }

  /** The final `update_scrape_run` of a pass, at a fresh reading of the clock. */
  method CloseRun(store: Store, runId: nat, stats: nat -> Dict) returns (now: nat)
    requires store.Valid() && 1 <= runId <= |store.runs|
    modifies store
    ensures store.Valid()
    ensures now == old(store.clock) && store.clock == now + 1
    ensures store.runs == old(store.runs)[runId - 1 := ApplyRunStats(old(store.runs)[runId - 1], stats(now))]
    ensures store.listings == old(store.listings) && store.snapshots == old(store.snapshots)
    ensures store.details == old(store.details) && store.queue == old(store.queue)
  {
    FindRunById(store.runs, runId);
    now := store.Tick();
    store.UpdateScrapeRun(runId, stats(now));
  }

  /**
   * Where the walk stands: the pages fetched form a walk, `next` is where the last one
   * leads, or `failure` is what it raised.
   */
  ghost predicate Walking(fetch: Url -> Result<SearchPage>, resolveNext: string -> Url,
                          fetched: seq<Url>, next: Url, failure: Option<string>) {
    && IsWalk(fetch, resolveNext, fetched)
    && (fetched == [] ==> next == TargetUrl && failure.None?)
    && (fetched != [] && failure.None? ==> StepFrom(fetch, resolveNext, fetched[|fetched| - 1]) == Ok(next))
    && (failure.Some? ==> fetched != [] && StepFrom(fetch, resolveNext, fetched[|fetched| - 1]) == Err(failure.value))
  }

  /** Fetching `next`, not visited yet, moves the walk on by one page. */
  lemma WalkingStep(fetch: Url -> Result<SearchPage>, resolveNext: string -> Url,
                    fetched: seq<Url>, next: Url, step: Result<Url>)
    requires Walking(fetch, resolveNext, fetched, next, None) && next !in fetched
    requires step == StepFrom(fetch, resolveNext, next)
    ensures step.Err? ==> Walking(fetch, resolveNext, fetched + [next], next, Some(step.message))
    ensures step.Ok? ==> Walking(fetch, resolveNext, fetched + [next], step.value, None)
  {
    WalkExtends(fetch, resolveNext, fetched, next);
    assert (fetched + [next])[|fetched + [next]| - 1] == next;
  }

  /**
   * The `while next_url and next_url not in visited_urls` loop, on at most `fuel` pages.
   * It stops with `failure` set to what a page raised, or at a page whose successor it
   * has visited, or out of fuel.
   */
  method Walk(store: Store, fetch: Url -> Result<SearchPage>, resolveHref: string -> string,
              resolveNext: string -> Url, fuel: nat)
    returns (fetched: seq<Url>, counts: Counts, failure: Option<string>, revisits: bool)
    requires store.Valid()
    modifies store
    ensures store.Valid()
    ensures store.details == old(store.details) && store.runs == old(store.runs)
    ensures IsWalk(fetch, resolveNext, fetched) && |fetched| <= fuel && (fuel > 0 ==> fetched != [])
    ensures WalkStored(store.digest, fetch, resolveHref, old(TablesOf(store)), TablesOf(store), fetched, counts)
    ensures failure.Some? ==> fetched != [] && StepFrom(fetch, resolveNext, fetched[|fetched| - 1]) == Err(failure.value)
    ensures failure.None? && revisits ==>
      && fetched != []
      && StepFrom(fetch, resolveNext, fetched[|fetched| - 1]).Ok?
      && StepFrom(fetch, resolveNext, fetched[|fetched| - 1]).value in fetched
    ensures failure.None? && !revisits ==> |fetched| == fuel
  {
    var next := TargetUrl;
    var visited: set<Url> := {};
    fetched := [];
    counts := Counts(0, 0, 0, 0);
    failure := None;
    ghost var start := TablesOf(store);
    while failure.None? && next !in visited && |fetched| < fuel
      invariant store.Valid()
      invariant store.details == old(store.details) && store.runs == old(store.runs)
      invariant visited == set u | u in fetched
      invariant Walking(fetch, resolveNext, fetched, next, failure) && |fetched| <= fuel
      invariant WalkStored(store.digest, fetch, resolveHref, start, TablesOf(store), fetched, counts)
      decreases fuel - |fetched|
    {
      VisitedStep(fetched, next);
      var step;
      counts, step := Advance(store, fetch, resolveHref, resolveNext, start, fetched, next, counts);
      WalkingStep(fetch, resolveNext, fetched, next, step);
      visited := visited + {next};
      fetched := fetched + [next];
      if step.Err? {
        failure := Some(step.message);
      } else {
        next := step.value;
      }
    }
    revisits := next in visited;
  }

  /**
   * `run_search_scrape` on at most `fuel` pages. `fetch` is fetch-and-parse of a result
   * page, `resolveHref` and `resolveNext` are `urljoin` against the site's base URL.
   * Every listing found is stored and counted; a fetch error or an unusable page
   * parameter aborts the walk, and the run row is finalised once, as completed or as
   * failed; a pass out of fuel leaves it running.
   */
  method RunSearchScrape(store: Store, fetch: Url -> Result<SearchPage>, resolveHref: string -> string,
                         resolveNext: string -> Url, fuel: nat)
    returns (runId: nat, fetched: seq<Url>, counts: Counts, end: SearchEnd)
    requires store.Valid()
    modifies store
    ensures store.Valid()
    ensures runId == |old(store.runs)| + 1 && |store.runs| == runId
    ensures store.runs[..runId - 1] == old(store.runs)
    ensures IsWalk(fetch, resolveNext, fetched) && |fetched| <= fuel && (fuel > 0 ==> fetched != [])
    ensures store.details == old(store.details)
    ensures var found := FoundListings(fetch, resolveHref, fetched);
      var (saves, t) := SaveWalk(store.digest, fetch, resolveHref, old(TablesOf(store)).(clock := old(store.clock) + 1), fetched);
      && store.listings == t.listings && store.snapshots == t.snapshots && store.queue == t.queue
      && counts == Added(Counts(|found|, 0, 0, 0), saves)
    ensures |store.listings| == |old(store.listings)| + counts.inserted
    ensures |store.snapshots| == |old(store.snapshots)| + counts.inserted + counts.changed
    ensures counts.inserted + counts.changed + counts.errors <= counts.found
    ensures end.Finished? ==>
      && fetched != []
      && StepFrom(fetch, resolveNext, fetched[|fetched| - 1]).Ok?
      && StepFrom(fetch, resolveNext, fetched[|fetched| - 1]).value in fetched
      && store.runs[runId - 1] == ApplyRunStats(NewScrapeRun(runId, "search", old(store.clock)), CompletedSearchStats(counts, end.at))
    ensures end.Aborted? ==>
      && fetched != []
      && StepFrom(fetch, resolveNext, fetched[|fetched| - 1]) == Err(end.message)
      && store.runs[runId - 1] == ApplyRunStats(NewScrapeRun(runId, "search", old(store.clock)), FailedStats(counts.errors, end.message, end.at))
    ensures end.OutOfFuel? ==>
      |fetched| == fuel && store.runs[runId - 1] == NewScrapeRun(runId, "search", old(store.clock))
  {
    runId := store.CreateScrapeRun("search");
    ghost var start := TablesOf(store);
    var failure, revisits;
    fetched, counts, failure, revisits := Walk(store, fetch, resolveHref, resolveNext, fuel);
    CountsPartition(SaveWalk(store.digest, fetch, resolveHref, start, fetched).0);
    if failure.Some? || revisits {
      var stats := (t: nat) => SearchStats(counts, failure, t);
      var now := CloseRun(store, runId, stats);
      assert stats(now) == SearchStats(counts, failure, now);
      end := if failure.Some? then Aborted(failure.value, now) else Finished(now);
    } else {
      end := OutOfFuel;
    }
  }

  // ---------------------------------------------------------------- the details pass

  /** The default `batch_size` of `run_detail_scrape`. */
  const DefaultBatchSize: int := 25

  /** How one queue item of the batch ended. */
  datatype ItemEnd = Scraped | Missing | Errored(message: string)

  /** The item's listing is not in the store. */
  predicate ListingMissing(listings: seq<Listing>, b: QueueItem) {
    ListingById(listings, b.listingId).None?
  }

  /** The number of batch items whose listing is missing. */
  function MissingCount(listings: seq<Listing>, batch: seq<QueueItem>): (n: nat)
    ensures n <= |batch|
  {
    if batch == [] then 0
    else MissingCount(listings, batch[..|batch| - 1]) + (if ListingMissing(listings, batch[|batch| - 1]) then 1 else 0)
  }

  lemma MissingCountStep(listings: seq<Listing>, batch: seq<QueueItem>, j: nat)
    requires j < |batch|
    ensures MissingCount(listings, batch[..j + 1])
         == MissingCount(listings, batch[..j]) + (if ListingMissing(listings, batch[j]) then 1 else 0)
  {
    assert batch[..j + 1][..j] == batch[..j];
  }

  /** The row that item `b` names has the status `status`. */
  predicate RowIs(queue: seq<QueueItem>, b: QueueItem, status: QueueStatus) {
    1 <= b.id <= |queue| && queue[b.id - 1].status == status
  }

  /** The listing of item `b` was scraped: its row is completed. */
  predicate ScrapedItem(queue: seq<QueueItem>, b: QueueItem) {
    RowIs(queue, b, Completed)
  }

  /** Item `b` counts as an error: its listing exists and its row failed. */
  predicate ErroredItem(queue: seq<QueueItem>, listings: seq<Listing>, b: QueueItem) {
    RowIs(queue, b, Failed) && !ListingMissing(listings, b)
  }

  /** The number of batch items whose listing was scraped. */
  function ScrapedCount(queue: seq<QueueItem>, batch: seq<QueueItem>): (n: nat)
    ensures n <= |batch|
  {
    if batch == [] then 0
    else ScrapedCount(queue, batch[..|batch| - 1]) + (if ScrapedItem(queue, batch[|batch| - 1]) then 1 else 0)
  }

  /** The number of batch items that count as errors. */
  function ErroredCount(queue: seq<QueueItem>, listings: seq<Listing>, batch: seq<QueueItem>): (n: nat)
    ensures n <= |batch|
  {
    if batch == [] then 0
    else ErroredCount(queue, listings, batch[..|batch| - 1]) + (if ErroredItem(queue, listings, batch[|batch| - 1]) then 1 else 0)
  }

  lemma OutcomeCountsStep(queue: seq<QueueItem>, listings: seq<Listing>, batch: seq<QueueItem>, j: nat)
    requires j < |batch|
    ensures ScrapedCount(queue, batch[..j + 1])
         == ScrapedCount(queue, batch[..j]) + (if ScrapedItem(queue, batch[j]) then 1 else 0)
    ensures ErroredCount(queue, listings, batch[..j + 1])
         == ErroredCount(queue, listings, batch[..j]) + (if ErroredItem(queue, listings, batch[j]) then 1 else 0)
  {
    assert batch[..j + 1][..j] == batch[..j];
  }

  /** The counts read only the rows the items name: other rows may change. */
  lemma {:induction false} OutcomeCountsKept(q1: seq<QueueItem>, q2: seq<QueueItem>, listings: seq<Listing>, batch: seq<QueueItem>)
    requires |q1| == |q2|
    requires forall k :: 0 <= k < |batch| && 1 <= batch[k].id <= |q1| ==> q2[batch[k].id - 1] == q1[batch[k].id - 1]
    ensures ScrapedCount(q2, batch) == ScrapedCount(q1, batch)
    ensures ErroredCount(q2, listings, batch) == ErroredCount(q1, listings, batch)
  {
    if batch != [] {
      var init := batch[..|batch| - 1];
      assert forall k :: 0 <= k < |init| ==> init[k] == batch[k];
      OutcomeCountsKept(q1, q2, listings, init);
    }
  }

  /** No two items of the batch name the same row. */
  predicate DistinctIds(batch: seq<QueueItem>) {
    forall k, k' :: 0 <= k < k' < |batch| ==> batch[k].id != batch[k'].id
  }

  /**
   * The row of a processed item is finished: failed with "Listing not found" when the
   * listing is missing, and completed only with a detail row stored for its listing.
   */
  ghost predicate Settled(queue: seq<QueueItem>, details: seq<Detail>, listings: seq<Listing>, b: QueueItem)
    requires 1 <= b.id <= |queue|
  {
    var q := queue[b.id - 1];
    && q.status in {Completed, Failed}
    && (ListingMissing(listings, b) ==> q.status == Failed && q.errorMessage == Some("Listing not found"))
    && (q.status == Completed ==> FindDetail(details, b.listingId).Some?)
  }

  /**
   * Fetch and parse the detail page of `listing` and store what it gives; returns the
   * id of the detail row, or the message of what was raised.
   */
  method ScrapeDetail(store: Store, fetchDetail: Value -> Result<DetailTexts>, listing: Listing) returns (r: Result<nat>)
    requires store.Valid()
    modifies store
    ensures store.Valid()
    ensures store.listings == old(store.listings) && store.snapshots == old(store.snapshots)
    ensures store.queue == old(store.queue) && store.runs == old(store.runs)
    ensures DetailsKept(old(store.details), store.details)
    ensures store.clock >= old(store.clock)
    ensures r.Ok? ==> FindDetail(store.details, listing.id).Some?
    ensures fetchDetail(At(listing.data, "url")).Err? ==> r == Err(fetchDetail(At(listing.data, "url")).message)
  {
    var page := fetchDetail(At(listing.data, "url"));
    if page.Err? {
      return Err(page.message);
    }
    var pairs := KeyValuePairs(page.value.rows, page.value.lists);
    r := store.SaveListingDetail(listing.id, DetailFields(page.value, pairs));
  }

  /** Writing a row twice leaves only the second write. */
  lemma UpdatedTwice(q: seq<QueueItem>, i: nat, x: QueueItem, y: QueueItem)
    requires i < |q|
    ensures q[i := x][i := y] == q[i := y]
  {
  }

  /** A row marked failed is settled, provided a missing listing is what it reports. */
  lemma SettledOnFailure(queue: seq<QueueItem>, details: seq<Detail>, listings: seq<Listing>, b: QueueItem, message: string)
    requires 1 <= b.id <= |queue|
    requires queue[b.id - 1].status == Failed && queue[b.id - 1].errorMessage == Some(message)
    requires ListingMissing(listings, b) ==> message == "Listing not found"
    ensures Settled(queue, details, listings, b)
  {
  }

  /** A row marked completed is settled once its listing exists and has a detail row. */
  lemma SettledOnSuccess(queue: seq<QueueItem>, details: seq<Detail>, listings: seq<Listing>, b: QueueItem)
    requires 1 <= b.id <= |queue|
    requires queue[b.id - 1].status == Completed && !ListingMissing(listings, b)
    requires FindDetail(details, b.listingId).Some?
    ensures Settled(queue, details, listings, b)
  {
  }

  /** The body of the loop of `run_detail_scrape`, for the queue item `b`. */
  method ProcessItem(store: Store, fetchDetail: Value -> Result<DetailTexts>, b: QueueItem) returns (e: ItemEnd)
    requires store.Valid()
    requires 1 <= b.id <= |store.queue| && store.queue[b.id - 1].listingId == b.listingId
    modifies store
    ensures store.Valid()
    ensures store.listings == old(store.listings) && store.snapshots == old(store.snapshots) && store.runs == old(store.runs)
    ensures |store.queue| == |old(store.queue)|
    ensures store.queue == old(store.queue)[b.id - 1 := store.queue[b.id - 1]]
    ensures store.queue[b.id - 1].listingId == b.listingId
    ensures DetailsKept(old(store.details), store.details)
    ensures Settled(store.queue, store.details, store.listings, b)
    ensures e.Missing? <==> ListingMissing(store.listings, b)
    ensures e.Scraped? <==> ScrapedItem(store.queue, b)
    ensures e.Errored? <==> ErroredItem(store.queue, store.listings, b)
    ensures e.Errored? ==> store.queue[b.id - 1].errorMessage == Some(e.message)
    ensures var was, now := old(store.queue)[b.id - 1], store.queue[b.id - 1];
      && now.retryCount == was.retryCount + (if e.Scraped? then 0 else 1)
      && (e.Scraped? ==> now.errorMessage == was.errorMessage)
      && now.priority == was.priority && now.createdAt == was.createdAt
      && now.processedAt.Some? && old(store.clock) <= now.processedAt.value < store.clock
  {
    ghost var q0 := store.queue;
    ghost var c0 := store.clock;
    store.MarkQueueProcessing(b.id);
    ghost var q1 := store.queue;
    var listing := ListingById(store.listings, b.listingId);
    if listing.None? {
      store.MarkQueueFailed(b.id, "Listing not found");
      SettledOnFailure(store.queue, store.details, store.listings, b, "Listing not found");
      e := Missing;
      RowEnd(q0[b.id - 1], store.queue[b.id - 1], e, c0, store.clock);
      assert !ScrapedItem(store.queue, b) && !ErroredItem(store.queue, store.listings, b);
    } else {
      var saved := ScrapeDetail(store, fetchDetail, listing.value);
      if saved.Err? {
        store.MarkQueueFailed(b.id, saved.message);
        SettledOnFailure(store.queue, store.details, store.listings, b, saved.message);
        e := Errored(saved.message);
        RowEnd(q0[b.id - 1], store.queue[b.id - 1], e, c0, store.clock);
        assert !ScrapedItem(store.queue, b) && ErroredItem(store.queue, store.listings, b);
      } else {
        store.MarkQueueCompleted(b.id);
        SettledOnSuccess(store.queue, store.details, store.listings, b);
        e := Scraped;
        RowEnd(q0[b.id - 1], store.queue[b.id - 1], e, c0, store.clock);
        assert ScrapedItem(store.queue, b) && !ErroredItem(store.queue, store.listings, b);
      }
    }
    UpdatedTwice(q0, b.id - 1, q1[b.id - 1], store.queue[b.id - 1]);
  }

  /** The bookkeeping columns of an item row at the end of its processing. */
  ghost predicate RowEnded(was: QueueItem, now: QueueItem, e: ItemEnd, c0: nat, c1: nat) {
    && now.retryCount == was.retryCount + (if e.Scraped? then 0 else 1)
    && (e.Scraped? ==> now.errorMessage == was.errorMessage)
    && now.priority == was.priority && now.createdAt == was.createdAt
    && now.processedAt.Some? && c0 <= now.processedAt.value < c1
  }

  /** A row marked completed or failed after being marked processing has ended. */
  lemma RowEnd(was: QueueItem, now: QueueItem, e: ItemEnd, c0: nat, c1: nat)
    requires now.priority == was.priority && now.createdAt == was.createdAt
    requires now.processedAt.Some? && c0 <= now.processedAt.value < c1
    requires e.Scraped? ==> now.retryCount == was.retryCount && now.errorMessage == was.errorMessage
    requires !e.Scraped? ==> now.retryCount == was.retryCount + 1
    ensures RowEnded(was, now, e, c0, c1)
  {
  }

  /** A settled item stays settled while other rows change and detail rows are only added. */
  lemma SettledKept(q1: seq<QueueItem>, d1: seq<Detail>, q2: seq<QueueItem>, d2: seq<Detail>, listings: seq<Listing>, b: QueueItem)
    requires 1 <= b.id <= |q1| == |q2| && q2[b.id - 1] == q1[b.id - 1]
    requires DetailsKept(d1, d2)
    requires Settled(q1, d1, listings, b)
    ensures Settled(q2, d2, listings, b)
  {
    FindDetailKept(d1, d2);
  }

  /** The batch items are rows of `q0` at the position their id names. */
  ghost predicate RowsOf(batch: seq<QueueItem>, q0: seq<QueueItem>) {
    forall k :: 0 <= k < |batch| ==> 1 <= batch[k].id <= |q0| && q0[batch[k].id - 1] == batch[k]
  }

  /** Processing item `j` keeps the items before it settled and settles item `j`. */
  lemma SettledAfterItem(q0: seq<QueueItem>, batch: seq<QueueItem>, j: nat, listings: seq<Listing>,
                         q1: seq<QueueItem>, d1: seq<Detail>, q2: seq<QueueItem>, d2: seq<Detail>)
    requires RowsOf(batch, q0) && j < |batch| && |q1| == |q0|
    requires forall k :: 0 <= k < j ==> Settled(q1, d1, listings, batch[k])
    requires |q2| == |q1| && q2 == q1[batch[j].id - 1 := q2[batch[j].id - 1]]
    requires DetailsKept(d1, d2)
    requires Settled(q2, d2, listings, batch[j])
    ensures forall k :: 0 <= k < j + 1 ==> Settled(q2, d2, listings, batch[k])
  {
    forall k | 0 <= k < j ensures Settled(q2, d2, listings, batch[k]) {
      if batch[k].id == batch[j].id {
        assert batch[k] == batch[j];
      } else {
        SettledKept(q1, d1, q2, d2, listings, batch[k]);
      }
    }
  }

  /** Processing item `j` changes no row outside the items processed so far. */
  lemma UntouchedAfterItem(q0: seq<QueueItem>, batch: seq<QueueItem>, j: nat, q1: seq<QueueItem>, q2: seq<QueueItem>)
    requires j < |batch| && |q1| == |q0| && |q2| == |q1|
    requires 1 <= batch[j].id <= |q1|
    requires forall i :: 0 <= i < |q0| && !Picked(batch, j, i + 1) ==> q1[i] == q0[i]
    requires q2 == q1[batch[j].id - 1 := q2[batch[j].id - 1]]
    ensures forall i :: 0 <= i < |q0| && !Picked(batch, j + 1, i + 1) ==> q2[i] == q0[i]
  {
    forall i | 0 <= i < |q0| && !Picked(batch, j + 1, i + 1) ensures q2[i] == q0[i] {
      assert !Picked(batch, j, i + 1);
    }
  }

  /** The items of a batch are rows of the queue, at the position their id names. */
  lemma BatchRows(queue: seq<QueueItem>, limit: int)
    requires QueueIds(queue)
    ensures RowsOf(PendingDetailScrapes(queue, limit), queue)
  {
    var batch := PendingDetailScrapes(queue, limit);
    forall k | 0 <= k < |batch| ensures 1 <= batch[k].id <= |queue| && queue[batch[k].id - 1] == batch[k] {
      assert batch[k] in batch;
      var i :| 0 <= i < |queue| && queue[i] == batch[k];
    }
  }

  /** Rows with ids 1, 2, ... are all different: each occurs once. */
  lemma {:induction false} QueueRowsOnce(queue: seq<QueueItem>, x: QueueItem)
    requires QueueIds(queue)
    ensures multiset(queue)[x] <= 1
  {
    if queue != [] {
      var init := queue[..|queue| - 1];
      assert queue == init + [queue[|queue| - 1]];
      assert forall i :: 0 <= i < |init| ==> init[i] == queue[i];
      QueueRowsOnce(init, x);
      if x == queue[|queue| - 1] {
        assert x !in init;
      }
    }
  }

  /** An element at two positions occurs at least twice. */
  lemma PairCount<T>(s: seq<T>, k: nat, k': nat)
    requires k < k' < |s|
    ensures multiset(s)[s[k]] >= if s[k] == s[k'] then 2 else 1
  {
    assert s == s[..k'] + s[k'..];
    assert s[k] in s[..k'] && s[k'] in s[k'..];
  }

  /** The items of a batch name different rows. */
  lemma BatchDistinct(queue: seq<QueueItem>, limit: int)
    requires QueueIds(queue)
    ensures DistinctIds(PendingDetailScrapes(queue, limit))
  {
    var batch := PendingDetailScrapes(queue, limit);
    BatchRows(queue, limit);
    forall k, k' | 0 <= k < k' < |batch| ensures batch[k].id != batch[k'].id {
      PairCount(batch, k, k');
      QueueRowsOnce(queue, batch[k]);
      assert multiset(batch)[batch[k]] <= multiset(Filter(queue, IsPending))[batch[k]];
    }
  }

  function DetailStats(scraped: nat, errors: nat, now: nat): Dict {
    [ ("detail_pages_scraped", Int(scraped)), ("errors", Int(errors)),
      ("status", Str("completed")), ("completed_at", Int(now)) ]
  }

  /** The statistics of a details run name each column once. */
  lemma DetailKeysUnique(scraped: nat, errors: nat, now: nat)
    ensures UniqueKeys(DetailStats(scraped, errors, now))
  {
  }

  /** A finished details run records the pages scraped, the errors, its status and its end. */
  lemma DetailRunSets(run: ScrapeRun, scraped: nat, errors: nat, now: nat)
    ensures var r := ApplyRunStats(run, DetailStats(scraped, errors, now));
      && r.detailPagesScraped == Int(scraped) && r.errors == Int(errors)
      && r.status == Str("completed") && r.completedAt == Int(now)
  {
    var s := DetailStats(scraped, errors, now);
    DetailKeysUnique(scraped, errors, now);
    ApplyRunStatsAt(run, s, 0);
    ApplyRunStatsAt(run, s, 1);
    ApplyRunStatsAt(run, s, 2);
    ApplyRunStatsAt(run, s, 3);
  }

  /** A finished details run keeps the search counters and the message. */
  lemma DetailRunKeeps(run: ScrapeRun, scraped: nat, errors: nat, now: nat)
    ensures var r := ApplyRunStats(run, DetailStats(scraped, errors, now));
      && r.id == run.id && r.runType == run.runType && r.startedAt == run.startedAt
      && r.listingsFound == run.listingsFound && r.newListings == run.newListings
      && r.updatedListings == run.updatedListings && r.errorMessage == run.errorMessage
  {
    var s := DetailStats(scraped, errors, now);
    DetailKeysUnique(scraped, errors, now);
    ApplyRunStatsUnnamed(run, s, "run_type");
    ApplyRunStatsUnnamed(run, s, "started_at");
    ApplyRunStatsUnnamed(run, s, "listings_found");
    ApplyRunStatsUnnamed(run, s, "new_listings");
    ApplyRunStatsUnnamed(run, s, "updated_listings");
    ApplyRunStatsUnnamed(run, s, "error_message");
  }

  /** A finished details run records the pages scraped and the errors; the search counters stay. */
  lemma DetailRunRecorded(run: ScrapeRun, scraped: nat, errors: nat, now: nat)
    ensures var r := ApplyRunStats(run, DetailStats(scraped, errors, now));
      && r.id == run.id && r.runType == run.runType && r.startedAt == run.startedAt
      && r.detailPagesScraped == Int(scraped) && r.errors == Int(errors)
      && r.status == Str("completed") && r.completedAt == Int(now)
      && r.listingsFound == run.listingsFound && r.newListings == run.newListings
      && r.updatedListings == run.updatedListings && r.errorMessage == run.errorMessage
  {
    DetailRunSets(run, scraped, errors, now);
    DetailRunKeeps(run, scraped, errors, now);
  }

  /** One of the first `n` items of the batch names the queue row with this id. */
  predicate Picked(batch: seq<QueueItem>, n: nat, id: nat) {
    exists k :: 0 <= k < n && k < |batch| && batch[k].id == id
  }

  /** The loop invariant of `ProcessBatch` after `j` items. */
  ghost predicate BatchProgress(q0: seq<QueueItem>, batch: seq<QueueItem>, j: nat,
                                queue: seq<QueueItem>, details: seq<Detail>, listings: seq<Listing>, scraped: nat, errors: nat)
  {
    && j <= |batch|
    && RowsOf(batch, q0)
    && |queue| == |q0|
    && (forall k :: 0 <= k < |batch| ==> queue[batch[k].id - 1].listingId == batch[k].listingId)
    && DistinctIds(batch)
    && scraped + errors + MissingCount(listings, batch[..j]) == j
    && scraped == ScrapedCount(queue, batch[..j])
    && errors == ErroredCount(queue, listings, batch[..j])
    && (forall k :: 0 <= k < j ==> Settled(queue, details, listings, batch[k]))
    && (forall i :: 0 <= i < |q0| && !Picked(batch, j, i + 1) ==> queue[i] == q0[i])
  }

  /** What processing item `j` does to the loop invariant. */
  lemma ProgressStep(q0: seq<QueueItem>, batch: seq<QueueItem>, j: nat, listings: seq<Listing>,
                     q1: seq<QueueItem>, d1: seq<Detail>, scraped: nat, errors: nat,
                     q2: seq<QueueItem>, d2: seq<Detail>, scraped': nat, errors': nat)
    requires j < |batch|
    requires BatchProgress(q0, batch, j, q1, d1, listings, scraped, errors)
    requires |q2| == |q1| && q2 == q1[batch[j].id - 1 := q2[batch[j].id - 1]]
    requires q2[batch[j].id - 1].listingId == batch[j].listingId
    requires DetailsKept(d1, d2)
    requires Settled(q2, d2, listings, batch[j])
    requires scraped' == scraped + (if ScrapedItem(q2, batch[j]) then 1 else 0)
    requires errors' == errors + (if ErroredItem(q2, listings, batch[j]) then 1 else 0)
    ensures BatchProgress(q0, batch, j + 1, q2, d2, listings, scraped', errors')
  {
    SettledAfterItem(q0, batch, j, listings, q1, d1, q2, d2);
    UntouchedAfterItem(q0, batch, j, q1, q2);
    MissingCountStep(listings, batch, j);
    ListingIdsKept(q0, batch, j, q1, q2);
    OthersKept(q0, batch, j, q1, q2);
    OutcomeCountsKept(q1, q2, listings, batch[..j]);
    OutcomeCountsStep(q2, listings, batch, j);
  }

  /** Rewriting the row of item `j` leaves the rows of the items before it alone. */
  lemma OthersKept(q0: seq<QueueItem>, batch: seq<QueueItem>, j: nat, q1: seq<QueueItem>, q2: seq<QueueItem>)
    requires RowsOf(batch, q0) && DistinctIds(batch) && j < |batch| && |q1| == |q0| && |q2| == |q1|
    requires q2 == q1[batch[j].id - 1 := q2[batch[j].id - 1]]
    ensures forall k :: 0 <= k < |batch[..j]| && 1 <= batch[..j][k].id <= |q1| ==>
      q2[batch[..j][k].id - 1] == q1[batch[..j][k].id - 1]
  {
    forall k | 0 <= k < |batch[..j]| && 1 <= batch[..j][k].id <= |q1|
      ensures q2[batch[..j][k].id - 1] == q1[batch[..j][k].id - 1]
    {
      assert batch[..j][k] == batch[k] && batch[k].id != batch[j].id;
    }
  }

  /** Rewriting the row of one batch item keeps every batch item's listing at its row. */
  lemma ListingIdsKept(q0: seq<QueueItem>, batch: seq<QueueItem>, j: nat, q1: seq<QueueItem>, q2: seq<QueueItem>)
    requires RowsOf(batch, q0) && j < |batch| && |q1| == |q0| && |q2| == |q1|
    requires forall k :: 0 <= k < |batch| ==> q1[batch[k].id - 1].listingId == batch[k].listingId
    requires q2 == q1[batch[j].id - 1 := q2[batch[j].id - 1]] && q2[batch[j].id - 1].listingId == batch[j].listingId
    ensures forall k :: 0 <= k < |batch| ==> q2[batch[k].id - 1].listingId == batch[k].listingId
  {
    forall k | 0 <= k < |batch| ensures q2[batch[k].id - 1].listingId == batch[k].listingId {
      if batch[k].id != batch[j].id {
        assert q2[batch[k].id - 1] == q1[batch[k].id - 1];
      }
    }
  }

  /**
   * What a processed batch leaves behind: each item counts as scraped, as an error, or
   * (without counting) as missing its listing; every item's row is settled; rows that
   * no item names are as they were in `q0`.
   */
  ghost predicate BatchOutcome(q0: seq<QueueItem>, batch: seq<QueueItem>,
                               queue: seq<QueueItem>, details: seq<Detail>, listings: seq<Listing>, scraped: nat, errors: nat)
  {
    && |queue| == |q0|
    && scraped + errors + MissingCount(listings, batch) == |batch|
    && scraped == ScrapedCount(queue, batch)
    && errors == ErroredCount(queue, listings, batch)
    && (forall k :: 0 <= k < |batch| ==> 1 <= batch[k].id <= |queue| && Settled(queue, details, listings, batch[k]))
    && (forall i :: 0 <= i < |q0| && !Picked(batch, |batch|, i + 1) ==> queue[i] == q0[i])
  }

  /** The loop invariant after the whole batch is the outcome. */
  lemma BatchDone(q0: seq<QueueItem>, batch: seq<QueueItem>,
                  queue: seq<QueueItem>, details: seq<Detail>, listings: seq<Listing>, scraped: nat, errors: nat)
    requires BatchProgress(q0, batch, |batch|, queue, details, listings, scraped, errors)
    ensures BatchOutcome(q0, batch, queue, details, listings, scraped, errors)
  {
    assert batch[..|batch|] == batch;
  }

  /** Closing the run just opened at the end of the table rewrites the last row only. */
  lemma LastRunClosed(runs: seq<ScrapeRun>, run: ScrapeRun, stats: Dict)
    ensures (runs + [run])[|runs| := ApplyRunStats(run, stats)] == runs + [ApplyRunStats(run, stats)]
  {
  }

  /** One turn of the loop of `run_detail_scrape`, for item `j` of the batch. */
  method ProcessNext(store: Store, fetchDetail: Value -> Result<DetailTexts>, ghost q0: seq<QueueItem>,
                     batch: seq<QueueItem>, j: nat, scraped: nat, errors: nat)
    returns (scraped': nat, errors': nat)
    requires store.Valid() && j < |batch|
    requires BatchProgress(q0, batch, j, store.queue, store.details, store.listings, scraped, errors)
    modifies store
    ensures store.Valid()
    ensures store.listings == old(store.listings) && store.snapshots == old(store.snapshots) && store.runs == old(store.runs)
    ensures BatchProgress(q0, batch, j + 1, store.queue, store.details, store.listings, scraped', errors')
  {
    var b := batch[j];
    ghost var qBefore := store.queue;
    ghost var dBefore := store.details;
    var e := ProcessItem(store, fetchDetail, b);
    scraped' := if e.Scraped? then scraped + 1 else scraped;
    errors' := if e.Errored? then errors + 1 else errors;
    ProgressStep(q0, batch, j, store.listings, qBefore, dBefore, scraped, errors,
                 store.queue, store.details, scraped', errors');
  }
  /**
   * The loop of `run_detail_scrape` over a batch: every item ends settled, rows outside
   * the batch are untouched, and each item counts as scraped, as an error, or (without
   * counting) as missing its listing.
   */
  method ProcessBatch(store: Store, fetchDetail: Value -> Result<DetailTexts>, batch: seq<QueueItem>)
    returns (scraped: nat, errors: nat)
    requires store.Valid()
    requires RowsOf(batch, store.queue) && DistinctIds(batch)
    modifies store
    ensures store.Valid()
    ensures store.listings == old(store.listings) && store.snapshots == old(store.snapshots) && store.runs == old(store.runs)
    ensures BatchOutcome(old(store.queue), batch, store.queue, store.details, store.listings, scraped, errors)
  {
    ghost var q0 := store.queue;
    scraped, errors := 0, 0;
    var j := 0;
    while j < |batch|
      invariant 0 <= j <= |batch|
      invariant store.Valid()
      invariant store.listings == old(store.listings) && store.snapshots == old(store.snapshots) && store.runs == old(store.runs)
      invariant BatchProgress(q0, batch, j, store.queue, store.details, store.listings, scraped, errors)
    {
      scraped, errors := ProcessNext(store, fetchDetail, q0, batch, j, scraped, errors);
      j := j + 1;
    }
    BatchDone(q0, batch, store.queue, store.details, store.listings, scraped, errors);
  }

  /**
   * `run_detail_scrape`: the batch is the pending queue by priority, at most
   * `batchSize` of it; every item of it ends completed or failed; the run row is
   * closed once, as completed, with the pages scraped and the errors.
   */
  method RunDetailScrape(store: Store, fetchDetail: Value -> Result<DetailTexts>, batchSize: int)
    returns (runId: nat, batch: seq<QueueItem>, scraped: nat, errors: nat, finishedAt: nat)
    requires store.Valid()
    modifies store
    ensures store.Valid()
    ensures batch == PendingDetailScrapes(old(store.queue), batchSize)
    ensures batchSize >= 0 ==> |batch| <= batchSize
    ensures BatchOutcome(old(store.queue), batch, store.queue, store.details, store.listings, scraped, errors)
    ensures store.listings == old(store.listings) && store.snapshots == old(store.snapshots)
    ensures runId == |old(store.runs)| + 1
    ensures store.runs == old(store.runs) + [ApplyRunStats(NewScrapeRun(runId, "details", old(store.clock)), DetailStats(scraped, errors, finishedAt))]
  {
    runId := store.CreateScrapeRun("details");
    ghost var created := store.runs;
    batch := PendingDetailScrapes(store.queue, batchSize);
    BatchRows(store.queue, batchSize);
    BatchDistinct(store.queue, batchSize);
    scraped, errors := ProcessBatch(store, fetchDetail, batch);
    var stats := (t: nat) => DetailStats(scraped, errors, t);
    finishedAt := CloseRun(store, runId, stats);
    LastRunClosed(old(store.runs), created[runId - 1], stats(finishedAt));
  }
}
