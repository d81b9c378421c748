/**
 * The listing store: change-detecting upsert with snapshots, the per-listing
 * detail-fetch queue, detail rows, scrape-run bookkeeping and the two read queries.
 * The database session is the `Store` object; each table is a sequence field that
 * the operations reassign, and every service call reads the clock once.
 */
module ListingService {
  import opened Wrappers
  import opened Json
  import opened Sorting
  import opened Database

  // ---------------------------------------------------------------- listing data

  /** The value `Listing(...)` stores for column `c` when the input lacks the key. */
  function InsertDefault(c: string): Value {
    if c == "title" then Str("")
    else if c == "is_retirement_listing" then Bool(false)
    else Null
  }

  /**
   * The column default the INSERT falls back on: an attribute left at None is
   * omitted from the INSERT, so a column with a declared default takes it.
   */
  function ColumnDefault(c: string): Value {
    if c == "is_retirement_listing" then Bool(false) else Null
  }

  /** The value a new row stores when `Listing(...)` receives `v` for column `c`. */
  function Inserted(c: string, v: Value): Value {
    if v == Null then ColumnDefault(c) else v
  }

  /**
   * The copied columns of a new listing: the input's value, or the `.get`
   * default when the key is missing; a None falls back on the column default.
   */
  function NewListingData(input: Dict): (r: Dict)
    ensures Keys(r) == ListingColumns
    ensures forall i :: 0 <= i < |r| && HasKey(input, r[i].0) && Get(input, r[i].0) != Some(Null) ==>
      Some(r[i].1) == Get(input, r[i].0)
    ensures forall i :: 0 <= i < |r| && Get(input, r[i].0) == Some(Null) ==> r[i].1 == ColumnDefault(r[i].0)
    ensures forall i :: 0 <= i < |r| && !HasKey(input, r[i].0) ==> r[i].1 == InsertDefault(r[i].0)
  {
    GetFoundAll(input);
    seq(|ListingColumns|, i requires 0 <= i < |ListingColumns| =>
      (ListingColumns[i], Inserted(ListingColumns[i], GetOr(input, ListingColumns[i], InsertDefault(ListingColumns[i])))))
  }

  /** A new row never holds None for the flag: only a missing title or url fails the INSERT. */
  lemma NewListingDataMissesOnlyTitleOrUrl(input: Dict)
    ensures MissesRequired(NewListingData(input)) <==> Get(input, "title") == Some(Null) || At(input, "url") == Null
  {
    var r := NewListingData(input);
    GetFoundAll(input);
    assert r[0].0 == "title" && r[10].0 == "url" && r[11].0 == "is_retirement_listing";
    if MissesRequired(r) {
      var i :| 0 <= i < |r| && r[i].0 in RequiredListingColumns && r[i].1 == Null;
      RequiredColumnPositions(i);
    }
    if Get(input, "title") == Some(Null) {
      assert r[0].1 == Null;
    }
    if At(input, "url") == Null {
      assert r[10].1 == Null;
    }
  }

  /** `listing_data.get(c, existing.c)` for every copied column. */
  function MergedListingData(prev: Dict, input: Dict): (r: Dict)
    requires Keys(prev) == ListingColumns
    ensures Keys(r) == ListingColumns
    ensures forall i :: 0 <= i < |r| && HasKey(input, r[i].0) ==> Some(r[i].1) == Get(input, r[i].0)
    ensures forall i :: 0 <= i < |r| && !HasKey(input, r[i].0) ==> r[i] == prev[i]
  {
    GetFoundAll(input);
    seq(|ListingColumns|, i requires 0 <= i < |ListingColumns| =>
      (ListingColumns[i], GetOr(input, ListingColumns[i], prev[i].1)))
  }

  /** Merging the same input a second time changes nothing. */
  lemma MergedListingDataIdempotent(prev: Dict, input: Dict)
    requires Keys(prev) == ListingColumns
    ensures MergedListingData(MergedListingData(prev, input), input) == MergedListingData(prev, input)
  {
    var once := MergedListingData(prev, input);
    var twice := MergedListingData(once, input);
    forall i | 0 <= i < |twice| ensures twice[i] == once[i] {
      assert once[i].0 == ListingColumns[i] && twice[i].0 == ListingColumns[i];
    }
  }

  /** An input that names every copied column leaves nothing of the old row. */
  lemma MergedListingDataOverwritesAll(old1: Dict, old2: Dict, input: Dict)
    requires Keys(old1) == ListingColumns && Keys(old2) == ListingColumns
    requires forall c :: c in ListingColumns ==> HasKey(input, c)
    ensures MergedListingData(old1, input) == MergedListingData(old2, input)
  {
    var a := MergedListingData(old1, input);
    var b := MergedListingData(old2, input);
    forall i | 0 <= i < |a| ensures a[i] == b[i] {
      assert a[i].0 == ListingColumns[i] == b[i].0;
      assert ListingColumns[i] in ListingColumns;
    }
  }

  // ---------------------------------------------------------------- upsert

  /** `get_listing_by_external_id`: the index of the first listing with that id. */
  function FindByExternalId(listings: seq<Listing>, ext: Value): (r: Option<nat>)
    ensures r.None? <==> forall i :: 0 <= i < |listings| ==> listings[i].externalId != ext
    ensures r.Some? ==> r.value < |listings| && listings[r.value].externalId == ext
    ensures r.Some? ==> forall i :: 0 <= i < r.value ==> listings[i].externalId != ext
  {
    if listings == [] then None
    else if listings[|listings| - 1].externalId == ext && FindByExternalId(listings[..|listings| - 1], ext).None?
    then Some(|listings| - 1)
    else
      var r := FindByExternalId(listings[..|listings| - 1], ext);
      assert forall i :: 0 <= i < |listings| - 1 ==> listings[..|listings| - 1][i] == listings[i];
      r
  }

  /** A NOT NULL column among the copied ones holds None. */
  predicate MissesRequired(row: Dict) {
    exists i :: 0 <= i < |row| && row[i].0 in RequiredListingColumns && row[i].1 == Null
  }

  datatype Upserted = Upserted(result: Result<(nat, bool, bool)>, listings: seq<Listing>, snapshots: seq<Snapshot>)

  /**
   * `save_or_update_listing` on the two tables it touches: the result carries
   * (listing id, is_new, is_updated).
   */
  function Upsert(listings: seq<Listing>, snapshots: seq<Snapshot>, data: Dict, hash: string, now: nat): (u: Upserted)
    requires forall i :: 0 <= i < |listings| ==> Keys(listings[i].data) == ListingColumns
    ensures !Truthy(At(data, "external_id")) ==> u.result.Err? && u.result.message == "ValueError"
    ensures u.result.Err? ==> u.listings == listings && u.snapshots == snapshots
    ensures u.result.Ok? ==> var (id, isNew, isUpdated) := u.result.value;
      && !(isNew && isUpdated)
      && (isNew <==> FindByExternalId(listings, At(data, "external_id")).None?)
      && |u.listings| == |listings| + (if isNew then 1 else 0)
      && u.snapshots == snapshots + (if isNew || isUpdated then [Snapshot(|snapshots| + 1, id, data, hash, now)] else [])
    ensures u.result.Ok? && u.result.value.1 ==>
      u.listings == listings + [NewListing(|listings| + 1, At(data, "external_id"), NewListingData(data), hash, now)]
    ensures u.result.Ok? && !u.result.value.1 ==>
      var i := FindByExternalId(listings, At(data, "external_id")).value;
      && u.result.value.0 == listings[i].id
      && (u.result.value.2 <==> listings[i].contentHash != hash)
      && u.listings == listings[i := listings[i].(
           data := if u.result.value.2 then MergedListingData(listings[i].data, data) else listings[i].data,
           contentHash := hash, lastUpdatedAt := now)]
    ensures u.result.Err? && Truthy(At(data, "external_id")) ==>
      && u.result.message == "IntegrityError"
      && FindByExternalId(listings, At(data, "external_id")).None?
      && MissesRequired(NewListingData(data))
  {
    var ext := At(data, "external_id");
    if !Truthy(ext) then Upserted(Err("ValueError"), listings, snapshots)
    else
      match FindByExternalId(listings, ext)
      case None =>
        var row := NewListingData(data);
        if MissesRequired(row) then Upserted(Err("IntegrityError"), listings, snapshots)
        else
          var id := |listings| + 1;
          Upserted(Ok((id, true, false)),
                   listings + [NewListing(id, ext, row, hash, now)],
                   snapshots + [Snapshot(|snapshots| + 1, id, data, hash, now)])
      case Some(i) =>
        var existing := listings[i];
        if existing.contentHash != hash then
          var changed := existing.(data := MergedListingData(existing.data, data), contentHash := hash, lastUpdatedAt := now);
          Upserted(Ok((existing.id, false, true)),
                   listings[i := changed],
                   snapshots + [Snapshot(|snapshots| + 1, existing.id, data, hash, now)])
        else
          Upserted(Ok((existing.id, false, false)), listings[i := existing.(lastUpdatedAt := now)], snapshots)
  }

  /** Ids follow row positions, external ids are unique and every row has the copied columns. */
  ghost predicate ListingsWellFormed(listings: seq<Listing>) {
    && UniqueExternalIds(listings)
    && (forall i :: 0 <= i < |listings| ==> listings[i].id == i + 1)
    && (forall i :: 0 <= i < |listings| ==> Keys(listings[i].data) == ListingColumns)
  }

  /** The upsert keeps the listings table well formed: in particular it never duplicates an external id. */
  lemma UpsertKeepsListingsWellFormed(listings: seq<Listing>, snapshots: seq<Snapshot>, data: Dict, hash: string, now: nat)
    requires ListingsWellFormed(listings)
    ensures ListingsWellFormed(Upsert(listings, snapshots, data, hash, now).listings)
  {
    var ext := At(data, "external_id");
    var u := Upsert(listings, snapshots, data, hash, now);
    if Truthy(ext) && FindByExternalId(listings, ext).None? && u.result.Ok? {
      assert u.listings == listings + [NewListing(|listings| + 1, ext, NewListingData(data), hash, now)];
    }
  }

  /**
   * Upserting the same data twice: the second call finds the row the first call
   * left, with the same hash, and reports neither new nor updated.
   */
  lemma UpsertTwiceUnchanged(listings: seq<Listing>, snapshots: seq<Snapshot>, data: Dict, hash: string, now1: nat, now2: nat)
    requires ListingsWellFormed(listings)
    requires Upsert(listings, snapshots, data, hash, now1).result.Ok?
    ensures var first := Upsert(listings, snapshots, data, hash, now1);
      Upsert(first.listings, first.snapshots, data, hash, now2).result == Ok((first.result.value.0, false, false))
  {
    var ext := At(data, "external_id");
    var first := Upsert(listings, snapshots, data, hash, now1);
    UpsertKeepsListingsWellFormed(listings, snapshots, data, hash, now1);
    match FindByExternalId(listings, ext)
    case None =>
      var l := first.listings;
      assert l[|listings|].externalId == ext;
      assert FindByExternalId(l, ext) == Some(|listings|);
    case Some(i) =>
      assert first.listings[i].externalId == ext;
      assert FindByExternalId(first.listings, ext) == Some(i);
  }

  /** `get_listing_by_id`: the first listing with that id. */
  function ListingById(listings: seq<Listing>, id: nat): (r: Option<Listing>)
    ensures r.None? <==> forall i :: 0 <= i < |listings| ==> listings[i].id != id
    ensures r.Some? ==> r.value in listings && r.value.id == id
  {
    if listings == [] then None
    else if listings[0].id == id then Some(listings[0])
    else ListingById(listings[1..], id)
  }

  // ---------------------------------------------------------------- queue

  /** The index of the queue row for `listingId`, if any. */
  function FindQueueItem(queue: seq<QueueItem>, listingId: nat): (r: Option<nat>)
    ensures r.None? <==> forall i :: 0 <= i < |queue| ==> queue[i].listingId != listingId
    ensures r.Some? ==> r.value < |queue| && queue[r.value].listingId == listingId
  {
    if queue == [] then None
    else if queue[|queue| - 1].listingId == listingId then Some(|queue| - 1)
    else
      var r := FindQueueItem(queue[..|queue| - 1], listingId);
      assert forall i :: 0 <= i < |queue| - 1 ==> queue[..|queue| - 1][i] == queue[i];
      r
  }

  /**
   * Re-enqueueing an existing row: a finished row (completed or failed) is armed
   * again, a pending or processing one keeps its status, and the priority only rises.
   */
  function Requeued(item: QueueItem, priority: int): (r: QueueItem)
    ensures r.status == (if item.status in {Completed, Failed} then Pending else item.status)
    ensures r.priority >= item.priority && r.priority >= priority
    ensures r.priority == item.priority || r.priority == priority
    ensures r.(status := item.status, priority := item.priority) == item
  {
    var armed := if item.status in {Completed, Failed} then item.(status := Pending) else item;
    if priority > item.priority then armed.(priority := priority) else armed
  }

  /** `queue_listing_for_details` on the queue table. */
  function Enqueue(queue: seq<QueueItem>, listingId: nat, priority: int, now: nat): (r: seq<QueueItem>)
  {
    match FindQueueItem(queue, listingId)
    case Some(i) => queue[i := Requeued(queue[i], priority)]
    case None => queue + [NewQueueItem(|queue| + 1, listingId, priority, now)]
  }

  /**
   * After queueing, the listing has exactly one row, it is not finished, and its
   * priority is at least the requested one; no other listing's row changes.
   */
  lemma EnqueueArmsListing(queue: seq<QueueItem>, listingId: nat, priority: int, now: nat)
    requires OneQueueItemPerListing(queue)
    ensures var r := Enqueue(queue, listingId, priority, now);
      && OneQueueItemPerListing(r)
      && FindQueueItem(r, listingId).Some?
      && (var q := r[FindQueueItem(r, listingId).value];
          q.status in {Pending, Processing} && q.priority >= priority)
      && forall i :: 0 <= i < |queue| && queue[i].listingId != listingId ==> r[i] == queue[i]
  {
    var r := Enqueue(queue, listingId, priority, now);
    match FindQueueItem(queue, listingId)
    case Some(i) =>
      assert r[i].listingId == listingId;
      forall j | 0 <= j < |r| && j != i ensures r[j].listingId != listingId {
        if j < i {
          assert queue[j].listingId != queue[i].listingId;
        } else {
          assert queue[i].listingId != queue[j].listingId;
        }
      }
      assert FindQueueItem(r, listingId) == Some(i);
    case None =>
      assert FindQueueItem(r, listingId) == Some(|queue|);
  }

  /** Re-enqueueing twice with the same priority is the same as once. */
  lemma RequeuedIdempotent(item: QueueItem, priority: int)
    ensures Requeued(Requeued(item, priority), priority) == Requeued(item, priority)
  {
  }

  /** `ORDER BY priority DESC, created_at ASC`. */
  predicate QueueBefore(a: QueueItem, b: QueueItem) {
    a.priority > b.priority || (a.priority == b.priority && a.createdAt < b.createdAt)
  }

  lemma QueueBeforeIsStrictWeakOrder()
    ensures StrictWeakOrder(QueueBefore)
  {
  }

  predicate IsPending(q: QueueItem) {
    q.status == Pending
  }

  /** `.limit(n)`: SQLite reads a negative limit as no limit. */
  function Limit<T>(s: seq<T>, limit: int): (r: seq<T>)
    ensures limit < 0 || |s| <= limit ==> r == s
    ensures 0 <= limit < |s| ==> |r| == limit && r == s[..limit]
  {
    if limit < 0 || |s| <= limit then s else s[..limit]
  }

  /** `get_pending_detail_scrapes`. */
  function PendingDetailScrapes(queue: seq<QueueItem>, limit: int): (r: seq<QueueItem>)
    ensures forall q :: q in r ==> q in queue && q.status == Pending
    ensures limit >= 0 ==> |r| == if limit < |Filter(queue, IsPending)| then limit else |Filter(queue, IsPending)|
    ensures limit < 0 ==> |r| == |Filter(queue, IsPending)|
    ensures SortedBy(r, QueueBefore)
    ensures multiset(r) <= multiset(Filter(queue, IsPending))
    ensures limit < 0 ==> multiset(r) == multiset(Filter(queue, IsPending))
  {
    QueueBeforeIsStrictWeakOrder();
    var sorted := SortBy(Filter(queue, IsPending), QueueBefore);
    SortBySorted(Filter(queue, IsPending), QueueBefore);
    var r := Limit(sorted, limit);
    PrefixMultiset(sorted, |r|);
    assert r == sorted[..|r|];
    r
  }

  /** No pending row left out of a batch comes before a row taken into it. */
  lemma PendingBatchIsBest(queue: seq<QueueItem>, limit: nat)
    ensures var batch := PendingDetailScrapes(queue, limit);
      forall skipped, taken :: skipped in multiset(Filter(queue, IsPending)) - multiset(batch) && taken in batch
        ==> !QueueBefore(skipped, taken)
  {
    QueueBeforeIsStrictWeakOrder();
    var pending := Filter(queue, IsPending);
    TakeIsBest(pending, limit, QueueBefore);
  }

  /** A batch at least as large as the pending rows takes all of them. */
  lemma PendingBatchTakesAll(queue: seq<QueueItem>, limit: int)
    requires limit >= |Filter(queue, IsPending)|
    ensures multiset(PendingDetailScrapes(queue, limit)) == multiset(Filter(queue, IsPending))
  {
  }

  // ---------------------------------------------------------------- details

  /** `setattr` over the entries of `detail`, in order, for the names that are detail columns. */
  function ApplyDetail(d: Detail, detail: Dict): (r: Detail)
    ensures r.id == d.id && r.listingId == d.listingId && r.scrapedAt == d.scrapedAt && r.scrapeStatus == d.scrapeStatus
  {
    if detail == [] then d
    else
      var last := detail[|detail| - 1];
      SetDetailAttr(ApplyDetail(d, detail[..|detail| - 1]), last.0, last.1)
  }

  /**
   * Every detail column named in the dictionary takes its value; every other column
   * keeps the old one.
   */
  lemma {:induction false} ApplyDetailColumns(d: Detail, detail: Dict, c: string)
    requires UniqueKeys(detail)
    requires c in DetailColumns
    ensures HasKey(detail, c) ==> Some(DetailAttr(ApplyDetail(d, detail), c)) == Get(detail, c)
    ensures !HasKey(detail, c) ==> DetailAttr(ApplyDetail(d, detail), c) == DetailAttr(d, c)
  {
    if detail != [] {
      var init := detail[..|detail| - 1];
      var last := detail[|detail| - 1];
      assert detail == init + [last];
      assert UniqueKeys(init);
      ApplyDetailColumns(d, init, c);
      GetSnoc(init, last, c);
    }
  }

  /** The index of the detail row for `listingId`, if any. */
  function FindDetail(details: seq<Detail>, listingId: nat): (r: Option<nat>)
    ensures r.None? <==> forall i :: 0 <= i < |details| ==> details[i].listingId != listingId
    ensures r.Some? ==> r.value < |details| && details[r.value].listingId == listingId
  {
    if details == [] then None
    else if details[|details| - 1].listingId == listingId then Some(|details| - 1)
    else
      var r := FindDetail(details[..|details| - 1], listingId);
      assert forall i :: 0 <= i < |details| - 1 ==> details[..|details| - 1][i] == details[i];
      r
  }

  /** Detail rows are numbered from 1 in insertion order. */
  predicate DetailIds(details: seq<Detail>) {
    forall i :: 0 <= i < |details| ==> details[i].id == i + 1
  }

  /** Snapshots, queue rows and runs are numbered from 1 in insertion order too. */
  predicate SnapshotIds(snapshots: seq<Snapshot>) {
    forall i :: 0 <= i < |snapshots| ==> snapshots[i].id == i + 1
  }

  predicate QueueIds(queue: seq<QueueItem>) {
    forall i :: 0 <= i < |queue| ==> queue[i].id == i + 1
  }

  predicate RunIds(runs: seq<ScrapeRun>) {
    forall i :: 0 <= i < |runs| ==> runs[i].id == i + 1
  }

  /** Every detail row keeps its listing, and rows are only added. */
  predicate DetailsKept(before: seq<Detail>, after: seq<Detail>) {
    |before| <= |after| && forall i :: 0 <= i < |before| ==> after[i].listingId == before[i].listingId
  }

  /** A table that keeps every row's listing in place still finds every listing it found. */
  lemma FindDetailKept(before: seq<Detail>, after: seq<Detail>)
    requires DetailsKept(before, after)
    ensures forall x :: FindDetail(before, x).Some? ==> FindDetail(after, x).Some?
  {
    forall x | FindDetail(before, x).Some? ensures FindDetail(after, x).Some? {
      assert after[FindDetail(before, x).value].listingId == x;
    }
  }

  /** Rewriting a detail row in place, for the same listing and id, keeps the table's shape. */
  lemma DetailRewritten(details: seq<Detail>, i: nat, row: Detail)
    requires i < |details| && row.listingId == details[i].listingId && row.id == details[i].id
    requires OneDetailPerListing(details) && DetailIds(details)
    ensures OneDetailPerListing(details[i := row]) && DetailIds(details[i := row])
    ensures DetailsKept(details, details[i := row])
    ensures FindDetail(details[i := row], row.listingId).Some?
  {
    assert details[i := row][i].listingId == row.listingId;
  }

  /** Appending the row of a listing without one keeps one row per listing. */
  lemma DetailAppended(details: seq<Detail>, row: Detail)
    requires OneDetailPerListing(details) && FindDetail(details, row.listingId).None?
    requires DetailIds(details) && row.id == |details| + 1
    ensures OneDetailPerListing(details + [row]) && DetailIds(details + [row])
    ensures DetailsKept(details, details + [row])
    ensures FindDetail(details + [row], row.listingId).Some?
  {
    assert (details + [row])[|details|].listingId == row.listingId;
  }

  /**
   * What `save_listing_detail` returns and leaves in the table: the listing's row
   * takes the parsed columns and is marked completed at `now`, or a new row is
   * appended; a column the constructor does not know raises TypeError.
   */
  function DetailSaved(details: seq<Detail>, listingId: nat, detail: Dict, now: nat): (Result<nat>, seq<Detail>) {
    match FindDetail(details, listingId)
    case Some(i) =>
      (Ok(details[i].id), details[i := ApplyDetail(details[i], detail).(scrapeStatus := "completed", scrapedAt := now)])
    case None =>
      if AcceptedByConstructor(detail) then
        (Ok(|details| + 1), details + [ApplyDetail(EmptyDetail(|details| + 1, listingId, now, "completed"), detail)])
      else (Err("TypeError"), details)
  }

  /**
   * Saving a detail keeps one row per listing numbered in order, moves no row to
   * another listing, and on success leaves a row for the listing.
   */
  lemma DetailSavedKeeps(details: seq<Detail>, listingId: nat, detail: Dict, now: nat)
    requires OneDetailPerListing(details) && DetailIds(details)
    ensures var (r, after) := DetailSaved(details, listingId, detail, now);
      && OneDetailPerListing(after) && DetailIds(after) && DetailsKept(details, after)
      && (r.Ok? ==> FindDetail(after, listingId).Some? && r.value == FindDetail(after, listingId).value + 1)
  {
    match FindDetail(details, listingId)
    case Some(i) =>
      DetailRewritten(details, i, ApplyDetail(details[i], detail).(scrapeStatus := "completed", scrapedAt := now));
    case None =>
      if AcceptedByConstructor(detail) {
        DetailAppended(details, ApplyDetail(EmptyDetail(|details| + 1, listingId, now, "completed"), detail));
      } else {
        assert DetailsKept(details, details);
      }
  }

  /** The keyword arguments `ListingDetail(...)` accepts beside the three it is given. */
  predicate AcceptedByConstructor(detail: Dict) {
    forall i :: 0 <= i < |detail| ==> detail[i].0 in DetailColumns
  }

  // ---------------------------------------------------------------- scrape runs

  /** `setattr` over the entries of `stats`, in order, for the names that are run columns. */
  function ApplyRunStats(run: ScrapeRun, stats: Dict): (r: ScrapeRun)
    ensures r.id == run.id
  {
    if stats == [] then run
    else
      var last := stats[|stats| - 1];
      SetRunAttr(ApplyRunStats(run, stats[..|stats| - 1]), last.0, last.1)
  }

  /** Every run column named in the statistics takes its value; the others keep theirs. */
  lemma {:induction false} ApplyRunStatsColumns(run: ScrapeRun, stats: Dict, c: string)
    requires UniqueKeys(stats)
    requires c in RunColumns
    ensures HasKey(stats, c) ==> Some(RunAttr(ApplyRunStats(run, stats), c)) == Get(stats, c)
    ensures !HasKey(stats, c) ==> RunAttr(ApplyRunStats(run, stats), c) == RunAttr(run, c)
  {
    if stats != [] {
      var init := stats[..|stats| - 1];
      var last := stats[|stats| - 1];
      assert UniqueKeys(init);
      ApplyRunStatsColumns(run, init, c);
      assert forall k :: HasKey(stats, k) <==> HasKey(init, k) || k == last.0;
      if last.0 == c {
        assert !HasKey(init, c);
        GetAtFirst(stats, c, |stats| - 1);
      } else if HasKey(init, c) {
        var j :| 0 <= j < |init| && init[j].0 == c;
        GetAtFirst(init, c, j);
        GetAtFirst(stats, c, j);
      }
    }
  }

  /** A statistics entry naming a run column sets that column. */
  lemma ApplyRunStatsAt(run: ScrapeRun, stats: Dict, i: nat)
    requires UniqueKeys(stats)
    requires i < |stats| && stats[i].0 in RunColumns
    ensures RunAttr(ApplyRunStats(run, stats), stats[i].0) == stats[i].1
  {
    GetAtFirst(stats, stats[i].0, i);
    ApplyRunStatsColumns(run, stats, stats[i].0);
  }

  /** A run column the statistics do not name keeps its value. */
  lemma ApplyRunStatsUnnamed(run: ScrapeRun, stats: Dict, c: string)
    requires UniqueKeys(stats)
    requires c in RunColumns
    requires forall i :: 0 <= i < |stats| ==> stats[i].0 != c
    ensures RunAttr(ApplyRunStats(run, stats), c) == RunAttr(run, c)
  {
    ApplyRunStatsColumns(run, stats, c);
  }

  /** With run ids following positions, the run with id `id` sits at `id - 1`. */
  lemma FindRunById(runs: seq<ScrapeRun>, id: nat)
    requires RunIds(runs)
    requires 1 <= id <= |runs|
    ensures FindRun(runs, id) == Some(id - 1)
  {
  }

  /** The index of the run with that id, if any. */
  function FindRun(runs: seq<ScrapeRun>, runId: nat): (r: Option<nat>)
    ensures r.None? <==> forall i :: 0 <= i < |runs| ==> runs[i].id != runId
    ensures r.Some? ==> r.value < |runs| && runs[r.value].id == runId
  {
    if runs == [] then None
    else if runs[|runs| - 1].id == runId then Some(|runs| - 1)
    else
      var r := FindRun(runs[..|runs| - 1], runId);
      assert forall i :: 0 <= i < |runs| - 1 ==> runs[..|runs| - 1][i] == runs[i];
      r
  }

  // ---------------------------------------------------------------- retirement query

  /** SQL `column >= bound`: NULL and non-integers never match. */
  predicate AtLeast(v: Value, bound: int) {
    v.Int? && v.i >= bound
  }

  predicate AtMost(v: Value, bound: int) {
    v.Int? && v.i <= bound
  }

  /** The WHERE clause of `get_retirement_listings`; an empty state or city is no filter. */
  predicate MatchesRetirementQuery(l: Listing, minPrice: Option<int>, maxPrice: Option<int>, state: Option<string>, city: Option<string>) {
    && At(l.data, "is_retirement_listing") == Bool(true)
    && (minPrice.Some? ==> AtLeast(At(l.data, "asking_price"), minPrice.value))
    && (maxPrice.Some? ==> AtMost(At(l.data, "asking_price"), maxPrice.value))
    && (state.Some? && state.value != [] ==> At(l.data, "location_state") == Str(state.value))
    && (city.Some? && city.value != [] ==> At(l.data, "location_city") == Str(city.value))
  }

  /** `ORDER BY last_updated_at DESC`. */
  predicate UpdatedLater(a: Listing, b: Listing) {
    a.lastUpdatedAt > b.lastUpdatedAt
  }

  /** `get_retirement_listings`: every matching listing, most recently updated first. */
  function RetirementListings(listings: seq<Listing>, minPrice: Option<int>, maxPrice: Option<int>, state: Option<string>, city: Option<string>): (r: seq<Listing>)
    ensures forall l :: l in r <==> l in listings && MatchesRetirementQuery(l, minPrice, maxPrice, state, city)
    ensures forall i, j :: 0 <= i < j < |r| ==> r[i].lastUpdatedAt >= r[j].lastUpdatedAt
    ensures forall l :: multiset(r)[l] == if MatchesRetirementQuery(l, minPrice, maxPrice, state, city) then multiset(listings)[l] else 0
  {
    var matches := Filter(listings, l => MatchesRetirementQuery(l, minPrice, maxPrice, state, city));
    SortBySorted(matches, UpdatedLater);
    var r := SortBy(matches, UpdatedLater);
    assert forall l :: l in r <==> l in multiset(matches);
    r
  }

  // ---------------------------------------------------------------- the store

  class Store {
    var listings: seq<Listing>
    var snapshots: seq<Snapshot>
    var details: seq<Detail>
    var queue: seq<QueueItem>
    var runs: seq<ScrapeRun>
    /** Readings of `datetime.utcnow()`: each service call takes the current value and advances it. */
    var clock: nat
    /** SHA-256 of the JSON text, abstracted. */
    const digest: Dict -> string

    ghost predicate Valid()
      reads this
    {
      && ListingsWellFormed(listings)
      && SnapshotIds(snapshots)
      && DetailIds(details)
      && QueueIds(queue)
      && RunIds(runs)
      && OneDetailPerListing(details)
      && OneQueueItemPerListing(queue)
    }

    constructor (digest: Dict -> string)
      ensures Valid() && this.digest == digest
      ensures listings == [] && snapshots == [] && details == [] && queue == [] && runs == []
    {
      this.digest := digest;
      listings, snapshots, details, queue, runs := [], [], [], [], [];
      clock := 0;
    }

    /** A reading of `datetime.utcnow()` by a caller of the service. */
    method Tick() returns (now: nat)
      modifies this
      ensures now == old(clock) && clock == old(clock) + 1
      ensures listings == old(listings) && snapshots == old(snapshots) && details == old(details)
      ensures queue == old(queue) && runs == old(runs)
    {
      now := clock;
      clock := clock + 1;
    }

    /** `save_or_update_listing`. */
    method SaveOrUpdateListing(data: Dict) returns (r: Result<(nat, bool, bool)>)
      requires Valid()
      modifies this
      ensures Valid()
      ensures var u := Upsert(old(listings), old(snapshots), data, ContentHash(digest, data), old(clock));
        r == u.result && listings == u.listings && snapshots == u.snapshots
      ensures details == old(details) && queue == old(queue) && runs == old(runs)
      ensures clock == old(clock) + 1
    {
      var now := clock;
      clock := clock + 1;
      var ext := At(data, "external_id");
      if !Truthy(ext) {
        return Err("ValueError");
      }
      var hash := ContentHash(digest, data);
      UpsertKeepsListingsWellFormed(listings, snapshots, data, hash, now);
      var ls, ss := listings, snapshots;
      var existing := FindByExternalId(ls, ext);
      if existing.None? {
        var row := NewListingData(data);
        if MissesRequired(row) {
          return Err("IntegrityError");
        }
        var id := |ls| + 1;
        ls := ls + [NewListing(id, ext, row, hash, now)];
        ss := ss + [Snapshot(|ss| + 1, id, data, hash, now)];
        r := Ok((id, true, false));
      } else {
        var i := existing.value;
        var row := ls[i];
        if row.contentHash != hash {
          ls := ls[i := row.(data := MergedListingData(row.data, data), contentHash := hash, lastUpdatedAt := now)];
          ss := ss + [Snapshot(|ss| + 1, row.id, data, hash, now)];
          r := Ok((row.id, false, true));
        } else {
          ls := ls[i := row.(lastUpdatedAt := now)];
          r := Ok((row.id, false, false));
        }
      }
      listings, snapshots := ls, ss;
    }

    /** `queue_listing_for_details`. */
    method QueueListingForDetails(listingId: nat, priority: int)
      requires Valid()
      modifies this
      ensures Valid()
      ensures queue == Enqueue(old(queue), listingId, priority, old(clock))
      ensures listings == old(listings) && snapshots == old(snapshots) && details == old(details) && runs == old(runs)
      ensures clock == old(clock) + 1
    {
      var now := clock;
      clock := clock + 1;
      var existing := FindQueueItem(queue, listingId);
      if existing.Some? {
        var i := existing.value;
        var item := queue[i];
        if item.status in {Completed, Failed} {
          item := item.(status := Pending);
        }
        if priority > item.priority {
          item := item.(priority := priority);
        }
        queue := queue[i := item];
        return;
      }
      queue := queue + [NewQueueItem(|queue| + 1, listingId, priority, now)];
    }

    /** `save_listing_detail`: overwrite the listing's detail row, or create it. */
    method SaveListingDetail(listingId: nat, detail: Dict) returns (r: Result<nat>)
      requires Valid()
      modifies this
      ensures Valid()
      ensures (r, details) == DetailSaved(old(details), listingId, detail, old(clock))
      ensures r.Ok? ==> FindDetail(details, listingId).Some?
      ensures DetailsKept(old(details), details)
      ensures listings == old(listings) && snapshots == old(snapshots) && queue == old(queue) && runs == old(runs)
      ensures clock == old(clock) + 1
    {
      var now := clock;
      clock := clock + 1;
      var ds := details;
      DetailSavedKeeps(ds, listingId, detail, now);
      var existing := FindDetail(ds, listingId);
      if existing.Some? {
        var i := existing.value;
        var row := SetDetailAttrs(ds[i], detail);
        row := row.(scrapeStatus := "completed", scrapedAt := now);
        ds := ds[i := row];
        r := Ok(row.id);
      } else if !AcceptedByConstructor(detail) {
        r := Err("TypeError");
      } else {
        var row := SetDetailAttrs(EmptyDetail(|ds| + 1, listingId, now, "completed"), detail);
        ds := ds + [row];
        r := Ok(row.id);
      }
      details := ds;
    }

    /** The `setattr` loop over the parsed detail, in its order. */
    static method SetDetailAttrs(row: Detail, detail: Dict) returns (r: Detail)
      ensures r == ApplyDetail(row, detail)
    {
      r := row;
      var k := 0;
      while k < |detail|
        invariant 0 <= k <= |detail|
        invariant r == ApplyDetail(row, detail[..k])
      {
        assert detail[..k + 1][..k] == detail[..k];
        r := SetDetailAttr(r, detail[k].0, detail[k].1);
        k := k + 1;
      }
      assert detail[..k] == detail;
    }

    /** `mark_queue_processing`: only the status changes. */
    method MarkQueueProcessing(id: nat)
      requires Valid() && 1 <= id <= |queue|
      modifies this
      ensures Valid()
      ensures queue == old(queue)[id - 1 := old(queue)[id - 1].(status := Processing)]
      ensures listings == old(listings) && snapshots == old(snapshots) && details == old(details) && runs == old(runs)
      ensures clock == old(clock)
    {
      queue := queue[id - 1 := queue[id - 1].(status := Processing)];
    }

    /** `mark_queue_completed`: status and processing time change. */
    method MarkQueueCompleted(id: nat)
      requires Valid() && 1 <= id <= |queue|
      modifies this
      ensures Valid()
      ensures queue == old(queue)[id - 1 := old(queue)[id - 1].(status := Completed, processedAt := Some(old(clock)))]
      ensures listings == old(listings) && snapshots == old(snapshots) && details == old(details) && runs == old(runs)
      ensures clock == old(clock) + 1
    {
      var now := clock;
      clock := clock + 1;
      queue := queue[id - 1 := queue[id - 1].(status := Completed, processedAt := Some(now))];
    }

    /** `mark_queue_failed`: status, one more retry, the error and the processing time. */
    method MarkQueueFailed(id: nat, error: string)
      requires Valid() && 1 <= id <= |queue|
      modifies this
      ensures Valid()
      ensures var was := old(queue)[id - 1];
        queue == old(queue)[id - 1 := was.(status := Failed, retryCount := was.retryCount + 1,
                                           errorMessage := Some(error), processedAt := Some(old(clock)))]
      ensures listings == old(listings) && snapshots == old(snapshots) && details == old(details) && runs == old(runs)
      ensures clock == old(clock) + 1
    {
      var now := clock;
      clock := clock + 1;
      var item := queue[id - 1];
      queue := queue[id - 1 := item.(status := Failed, retryCount := item.retryCount + 1,
                                     errorMessage := Some(error), processedAt := Some(now))];
    }

    /** `create_scrape_run`. */
    method CreateScrapeRun(runType: string) returns (id: nat)
      requires Valid()
      modifies this
      ensures Valid()
      ensures id == |old(runs)| + 1 && runs == old(runs) + [NewScrapeRun(id, runType, old(clock))]
      ensures listings == old(listings) && snapshots == old(snapshots) && details == old(details) && queue == old(queue)
      ensures clock == old(clock) + 1
    {
      var now := clock;
      clock := clock + 1;
      id := |runs| + 1;
      runs := runs + [NewScrapeRun(id, runType, now)];
    }

    /** `update_scrape_run`: sets the known attributes; an unknown run id is a no-op. */
    method UpdateScrapeRun(runId: nat, stats: Dict)
      requires Valid()
      modifies this
      ensures Valid()
      ensures match FindRun(old(runs), runId)
        case Some(i) => runs == old(runs)[i := ApplyRunStats(old(runs)[i], stats)]
        case None => runs == old(runs)
      ensures listings == old(listings) && snapshots == old(snapshots) && details == old(details) && queue == old(queue)
      ensures clock == old(clock)
    {
      var found := FindRun(runs, runId);
      if found.None? {
        return;
      }
      var i := found.value;
      var run := runs[i];
      var k := 0;
      while k < |stats|
        invariant 0 <= k <= |stats|
        invariant run == ApplyRunStats(runs[i], stats[..k])
      {
        assert stats[..k + 1][..k] == stats[..k];
        run := SetRunAttr(run, stats[k].0, stats[k].1);
        k := k + 1;
      }
      assert stats[..k] == stats;
      runs := runs[i := run];
    }

    /** `mark_listing_inactive`: an unknown external id is a no-op. */
    method MarkListingInactive(ext: Value)
      requires Valid()
      modifies this
      ensures Valid()
      ensures match FindByExternalId(old(listings), ext)
        case Some(i) => listings == old(listings)[i := old(listings)[i].(isActive := false, lastUpdatedAt := old(clock))]
        case None => listings == old(listings)
      ensures snapshots == old(snapshots) && details == old(details) && queue == old(queue) && runs == old(runs)
      ensures clock == old(clock) + 1
    {
      var now := clock;
      clock := clock + 1;
      var found := FindByExternalId(listings, ext);
      if found.Some? {
        var i := found.value;
        listings := listings[i := listings[i].(isActive := false, lastUpdatedAt := now)];
      }
    }
  }
}
