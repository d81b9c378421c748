# BizBuySell scraper and Google Maps lead pipeline, modelled in Dafny

This project models the core of a small lead-generation service. The service has two halves.

The first half scrapes business-for-sale listings from BizBuySell:
- it parses search-result cards into listing dictionaries (price, location, category, retirement flag, external id);
- it de-duplicates the cards and follows pagination;
- it parses detail pages into key/value facts;
- it stores everything through a listing service. That service upserts listings with content-hash change detection, keeps snapshots, queues listings for detail scraping, and records scrape runs.

Two scheduled jobs drive this half:
- a search pass, which walks result pages and never revisits a URL;
- a details pass, which takes a prioritised batch from the queue.

The second half ingests Google Maps places from SerpApi as leads:
- it validates the ingest settings;
- it maps each place to a lead record;
- it de-duplicates by place id, data id or name, across pages and across runs;
- it normalises the leads into spreadsheet rows for export.

One module per source file (plus shared helpers):

| file | module | models |
|---|---|---|
| `wrappers.dfy` | `Wrappers` | `Option` / `Result` |
| `json.dfy` | `Json` | JSON-like values, Python truthiness and `or`, dictionaries as ordered association lists (`get`, item assignment) |
| `text.dfy` | `Text` | `lower`, `upper`, `strip`, `in`, `find`, `split(",")`, `split()`, digits, `int()`/`str()` of naturals |
| `sorting.dfy` | `Sorting` | a stable insertion sort by a strict weak order, used for `sorted(...)` and `ORDER BY` |
| `bizbuysell.dfy` | `BizBuySell` | `app/parsers/bizbuysell.py`, search side |
| `bizbuysell_detail.dfy` | `BizBuySellDetail` | `app/parsers/bizbuysell.py`, detail-page helpers |
| `brightdata.dfy` | `BrightData` | `app/parsers/bizbuysell.py`, the proxy user-name zone rewrite |
| `database.dfy` | `Database` | `app/database.py` |
| `listing_service.dfy` | `ListingService` | `app/services/listing_service.py`, as a class `Store` whose tables are `seq` fields updated in place |
| `scrape_job.dfy` | `ScrapeJob` | `app/scheduler/scrape_job.py`, as methods over a `Store` |
| `google_maps.dfy` | `GoogleMaps` | `app/leadgen/ingest/google_maps.py` |
| `sheets.dfy` | `Sheets` | `app/leadgen/export/sheets.py` |

Everything the code reaches outside itself is a parameter:
- the network, the HTML parser and SerpApi;
- the clock, which is a counter inside `Store` (one tick per `utcnow()` reading);
- SHA-256 (`digest`);
- `float(str)` (`parse`);
- `urljoin` (`resolve`).

The oracles are functions, so they are deterministic, and every statement about them holds for all of them.

Two consequences of the code became lemmas worth noting:
- `find_next_page_url` never returns `None`. The fallback always changes the page number (`BizBuySell.FindNextPage`), so a search pass ends only when it reaches a page it has already visited, or when an exception escapes.
- `_extract_city_state` always answers "TN", whatever the last address part says (`GoogleMaps.StateOfPart`).

## Model

| member | source | states |
|---|---|---|
| BizBuySell.FirstNumericRun | app/parsers/bizbuysell.py:398 | the first `[\d.]+` match: None exactly when the text has no digit or dot, else a non-empty run of digits and dots |
| BizBuySell.KeepNumChars | app/parsers/bizbuysell.py:407 | `re.sub(r"[^\d.]", "", …)`: only digits and dots remain, and the result is empty exactly when the text has none |
| BizBuySell.FloatOf | app/parsers/bizbuysell.py:410 | `float()` of a digits-and-dots string succeeds exactly when it has a digit and at most one dot |
| BizBuySell.ParsePrice | app/parsers/bizbuysell.py:391-413 | empty text and text with no digit or dot give None; a raised ValueError (Err) is possible only in the "million" and "k" branches, whose `float()` is not guarded |
| BizBuySell.ParsePriceMillionBranch | app/parsers/bizbuysell.py:394-400 | any text whose stripped, lower-cased form contains "million" and whose stripped form has a numeric run: `float` of the first run times 1,000,000, truncated, or the ValueError `float` raises |
| BizBuySell.ParsePriceThousandBranch | app/parsers/bizbuysell.py:394-405 | any text with "k" but not "million" in its stripped, lower-cased form and a numeric run: `float` of the first run times 1,000, truncated, or the ValueError `float` raises |
| BizBuySell.ParsePricePlainBranch | app/parsers/bizbuysell.py:394-410 | any other text whose remaining digits and dots `float` reads: that number, truncated toward zero |
| BizBuySell.ParsePricePlainUnreadable | app/parsers/bizbuysell.py:407-413 | any other text whose digits and dots `float` rejects ("1.2.3") gives None: that ValueError is caught |
| BizBuySell.PricePlain | app/parsers/bizbuysell.py:407-410 | text made of digits, `$` and `,` whose digits spell n parses to n |
| BizBuySell.PriceThousands | app/parsers/bizbuysell.py:402-405 | `"<n>k"` parses to n × 1000 |
| BizBuySell.PriceMillions | app/parsers/bizbuysell.py:397-400 | `"<n> million"` parses to n × 1,000,000 |
| BizBuySell.PriceMillionsDecimal | app/parsers/bizbuysell.py:397-400 | `"<w>.<f> million"` parses to w.f × 1,000,000 truncated toward zero |
| BizBuySell.ParseLocation | app/parsers/bizbuysell.py:415-425 | with a comma: (stripped first part, stripped second part); without one: (stripped text, ""); both results are stripped |
| BizBuySell.LocationRoundTrip | app/parsers/bizbuysell.py:415-425 | parsing `"<city>, <state>"` gives back city and state when neither has a comma or padding |
| BizBuySell.CashFlow | app/parsers/bizbuysell.py:427-432 | every "Cash Flow:" label removed, then stripped; a text without the label is only stripped; the result is stripped and no longer than the text |
| BizBuySell.CashFlowOfLabelled | app/parsers/bizbuysell.py:427-432 | `"Cash Flow: <v>"` gives back v |
| BizBuySell.AnyContained | app/parsers/bizbuysell.py:439 | `any(k in s for k in ks)` is true exactly when some keyword occurs |
| BizBuySell.DetectRetirement | app/parsers/bizbuysell.py:434-439 | true exactly when the text is non-empty and some retirement keyword occurs in its lower-cased form |
| BizBuySell.KeywordCore | app/parsers/bizbuysell.py:15-34 | every one of the 18 keywords contains "retire", "retiring" or "ready to sell" |
| BizBuySell.RetirementCore | app/parsers/bizbuysell.py:434-439 | the keyword list is equivalent to the three cores "retire", "retiring", "ready to sell" |
| BizBuySell.FirstCategoryFrom | app/parsers/bizbuysell.py:382-384 | the first category at or after k, in list order, whose lower-case form occurs in the title; None when there is none |
| BizBuySell.Category | app/parsers/bizbuysell.py:348-389 | the first matching category in list order; with no match, the first two words joined by a space, or "" for fewer than two words |
| BizBuySell.CategoryExample | app/parsers/bizbuysell.py:381-384 | example: "Profitable Pizza Restaurant" is a "Restaurant" |
| BizBuySell.IdSegmentFrom | app/parsers/bizbuysell.py:443 | the leftmost `/digits/` segment at or after k |
| BizBuySell.IdFromUrl | app/parsers/bizbuysell.py:441-446 | "" exactly when the URL has no `/digits/` segment; otherwise the digits of the leftmost one |
| BizBuySell.IdFromListingUrl | app/parsers/bizbuysell.py:441-446 | a URL `<prefix>/<n>/…` whose prefix has no slash yields n |
| BizBuySell.ExtractListing | app/parsers/bizbuysell.py:277-346 | no listing exactly when the card has no href or its price raises; otherwise url = resolved href; external id = anchor id, else the URL's id, else the URL; title = the card's title or ""; category = `Category(title)`; asking price = `ParsePrice` of the price text, and the raw price text; city and state = `ParseLocation` of the location, and the raw location; revenue ""; cash flow = `CashFlow` of its text; seller reason = the description; retirement flag from the description, else the title |
| BizBuySell.FirstOccurrencesAreFirst | app/parsers/bizbuysell.py:172-180 | every kept card is the first card with its key (id, else href), and that key is non-empty |
| BizBuySell.KeysSeenFirst | app/parsers/bizbuysell.py:178 | a card is kept exactly when its key is non-empty and not yet in `seen` |
| BizBuySell.FirstOccurrencesUnique | app/parsers/bizbuysell.py:172-180 | kept cards have non-empty, pairwise different keys |
| BizBuySell.FirstOccurrencesCover | app/parsers/bizbuysell.py:172-180 | every card with a non-empty key has its key among the kept cards |
| BizBuySell.FirstOccurrencesKeep | app/parsers/bizbuysell.py:172-180 | every first occurrence is kept |
| BizBuySell.FirstOccurrencesInOrder | app/parsers/bizbuysell.py:172-180 | the kept cards are a subsequence of the cards as the selectors list them (every `a.diamond`, then `a.showcase`, then `a.basic`): that order is kept |
| BizBuySell.ExtractAll | app/parsers/bizbuysell.py:182-185 | extraction never yields more listings than cards |
| BizBuySell.UniqueCards | app/parsers/bizbuysell.py:172-180 | the `seen`-set loop computes exactly the first occurrences |
| BizBuySell.ExtractCards | app/parsers/bizbuysell.py:182-185 | the append loop computes the listings of the cards that extract, in order |
| BizBuySell.ParseSearchResults | app/parsers/bizbuysell.py:157-187 | the listings of the de-duplicated cards, in selector order (every `a.diamond`, then `a.showcase`, then `a.basic`) |
| BizBuySell.FindNextPage | app/parsers/bizbuysell.py:251-275 | a non-empty next link is resolved and followed; otherwise `page` (default "1") must parse as an integer (else the ValueError), and the next URL is the same address with page + 1, never the current URL |
| BizBuySellDetail.Zip | app/parsers/bizbuysell.py:596 | `zip(dts, dds)` pairs terms and definitions position by position, up to the shorter list |
| BizBuySellDetail.LastRowValue | app/parsers/bizbuysell.py:584-591 | the value of the last row labelled k with both texts non-empty; None exactly when no row is |
| BizBuySellDetail.FirstValue | app/parsers/bizbuysell.py:593-600 | the first recordable pair with key k; None exactly when there is none |
| BizBuySellDetail.FirstValueAppend | app/parsers/bizbuysell.py:593-600 | `setdefault` over several definition lists is the first list's value, else the later lists' |
| BizBuySellDetail.PutPair | app/parsers/bizbuysell.py:591 | recording a pair keeps keys unique and every entry non-empty |
| BizBuySellDetail.RowPairs | app/parsers/bizbuysell.py:584-591 | the row loop leaves under every key the value of the last recordable row with that label |
| BizBuySellDetail.SetDefaults | app/parsers/bizbuysell.py:593-600 | `setdefault` keeps every existing key and adds the first recordable value of each new one |
| BizBuySellDetail.KeyValuePairs | app/parsers/bizbuysell.py:581-602 | only non-empty keys and values are recorded; row pairs win (the last one), definition-list pairs only fill missing keys (the first one) |
| BizBuySellDetail.FindKv | app/parsers/bizbuysell.py:644-648 | the value of the first listed key that is present; None exactly when none is |
| BizBuySellDetail.ParseYesNo | app/parsers/bizbuysell.py:651-659 | None for no or empty input; True exactly for yes/y/included/true and False exactly for no/n/not included/false, after strip and lower |
| BizBuySellDetail.ParseYesNoIgnoresCase | app/parsers/bizbuysell.py:654 | upper-casing the input does not change the answer |
| BizBuySellDetail.ParseYesNoIgnoresPadding | app/parsers/bizbuysell.py:654 | surrounding white space does not change the answer |
| BizBuySellDetail.OwnerRetiringMentionsRetiring | app/parsers/bizbuysell.py:639 | the "owner retiring" test is implied by the "retiring" test |
| BizBuySellDetail.ReasonFromText | app/parsers/bizbuysell.py:630-641 | the stripped suffix from "reason for sale", else from "reason for selling" (still starting with that heading); else "Owner retiring" exactly when "retiring" occurs; else None |
| BizBuySellDetail.OrText | app/parsers/bizbuysell.py:208-209 | a missing or empty first text falls back to the second |
| BizBuySellDetail.FinancialDetails | app/parsers/bizbuysell.py:222 | `kv_pairs or None`: null exactly for no pairs, else an object with the same entries in order |
| BizBuySellDetail.DetailFields | app/parsers/bizbuysell.py:208-249 | exactly the nine detail columns: full_description from the description, else the JSON-LD one; financial_details null exactly when no pair was found; years, employees and inventory the first present of their headings; real estate and training `ParseYesNo` of theirs; location from its selector; reason from its label, else from the JSON-LD text |
| BrightData.TailAfterZone | app/parsers/bizbuysell.py:519-521 | "" exactly when the rest has no '-'; otherwise a '-'-led tail that completes the text before the first '-' |
| BrightData.ApplyZoneOverride | app/parsers/bizbuysell.py:505-524 | unchanged unless the unlocker is on with a non-empty zone; a name without "-zone-" gets "-zone-<zone>" appended; otherwise the text before the first "-zone-", then "-zone-<zone>", then the tail that followed the old zone name (from its first '-') |
| BrightData.RewriteFixpoint | app/parsers/bizbuysell.py:514-522 | a name already carrying the configured zone is left as it is |
| BrightData.ApplyZoneOverrideIdempotent | app/parsers/bizbuysell.py:505-524 | applying the override twice equals applying it once |
| Database.NewListing | app/database.py:49-56 | a new listing is active, first seen and last updated now, with the given id, external id, columns and hash |
| Database.EmptyDetail | app/database.py:72-101 | a new detail row has every detail column NULL |
| Database.SetDetailAttr | app/database.py:72-101 | `setattr` of a value column changes exactly that column; a name that is not a value column changes nothing; id, listing_id and the status columns are kept |
| Database.NewScrapeRun | app/database.py:150-160 | a new run is "running", with all five counters 0 and completed_at and error_message NULL |
| Database.SetRunAttr | app/database.py:142-162 | `setattr` of a value column changes exactly that column; a name that is not a value column changes nothing; the id is kept |
| Database.NewQueueItem | app/database.py:171-181 | a new queue row is pending, with no retries, no error and no processed_at |
| Database.KeyBeforeIsStrictWeakOrder | app/database.py:213 | ordering entries by key is a strict weak order |
| Database.ContentHashSortsKeys | app/database.py:210-214 | the hash is the digest of a permutation of the data whose keys are in sorted order |
| Database.ContentHashIgnoresOrder | app/database.py:210-214 | two dictionaries with the same entries hash alike, whatever their insertion order |
| ListingService.NewListingData | app/services/listing_service.py:37-52 | every listing column: the input's value when the key is present and not None; a None falls back on the column default (false for is_retirement_listing, NULL otherwise); a missing key gives the `.get` default ("" for title, false for the flag, NULL otherwise) |
| ListingService.NewListingDataMissesOnlyTitleOrUrl | app/database.py:35-56 | a new row holds None in a NOT NULL column exactly when the input's title is None or its url is None or missing |
| ListingService.MergedListingData | app/services/listing_service.py:64-93 | every column present in the input is overwritten, every absent one keeps its old value |
| ListingService.MergedListingDataIdempotent | app/services/listing_service.py:64-93 | merging the same input twice equals merging it once |
| ListingService.MergedListingDataOverwritesAll | app/services/listing_service.py:64-93 | an input naming every column leaves nothing of the old row |
| ListingService.FindByExternalId | app/services/listing_service.py:19-20 | the first row with the external id; None exactly when no row has it |
| ListingService.Upsert | app/services/listing_service.py:23-107 | ValueError without a truthy external id, tables unchanged; unknown id: one listing and one snapshot appended, (id, new, not updated); known id with another hash: columns merged, hash and time updated, one snapshot, (id, not new, updated); same hash: only the time changes; an IntegrityError only for an insert whose new row holds None in a NOT NULL column |
| ListingService.UpsertKeepsListingsWellFormed | app/database.py:34 | upserting never duplicates an external id and keeps rows numbered in order with every column |
| ListingService.UpsertTwiceUnchanged | app/services/listing_service.py:105-107 | upserting the same data again reports (same id, not new, not updated) |
| ListingService.ListingById | app/services/listing_service.py:141-142 | the row with the id; None exactly when there is none |
| ListingService.FindQueueItem | app/services/listing_service.py:111-113 | the queue row of the listing; None exactly when there is none |
| ListingService.Requeued | app/services/listing_service.py:114-120 | a completed or failed row becomes pending, a pending or processing one keeps its status; the priority becomes the larger of the old and the requested one; nothing else changes |
| ListingService.EnqueueArmsListing | app/services/listing_service.py:110-128 | queueing keeps one row per listing, leaves the listing with a pending or processing row of at least the requested priority, and changes no other listing's row |
| ListingService.RequeuedIdempotent | app/services/listing_service.py:114-120 | re-queueing twice at one priority equals once |
| ListingService.QueueBeforeIsStrictWeakOrder | app/services/listing_service.py:135 | priority descending, then created_at ascending, is a strict weak order |
| ListingService.Limit | app/services/listing_service.py:136 | `.limit(n)` keeps the first n rows; a negative limit keeps all |
| ListingService.PendingDetailScrapes | app/services/listing_service.py:131-138 | pending queue rows only, each no more often than in the queue, sorted by priority descending then created_at ascending; exactly min(limit, number pending) rows for a non-negative limit, all pending rows otherwise |
| ListingService.PendingBatchIsBest | app/services/listing_service.py:131-138 | no pending row left out of the batch comes before one in it |
| ListingService.PendingBatchTakesAll | app/services/listing_service.py:131-138 | a limit at least the number of pending rows returns all of them |
| ListingService.ApplyDetailColumns | app/services/listing_service.py:153-155 | the `setattr` loop gives every detail column named in the data its value and leaves the others |
| ListingService.FindDetail | app/services/listing_service.py:148-150 | the detail row of the listing; None exactly when there is none |
| ListingService.DetailSavedKeeps | app/services/listing_service.py:145-169 | saving keeps one detail row per listing, numbered in order, moves no row to another listing, and on success leaves a row for the listing |
| ListingService.ApplyRunStats | app/services/listing_service.py:206-208 | the run keeps its id |
| ListingService.ApplyRunStatsColumns | app/services/listing_service.py:206-208 | every run column named in the stats takes its value; the others keep theirs |
| ListingService.ApplyRunStatsAt | app/services/listing_service.py:206-208 | the entry at position i lands in its column |
| ListingService.ApplyRunStatsUnnamed | app/services/listing_service.py:206-208 | a column the stats do not name is untouched |
| ListingService.FindRun | app/services/listing_service.py:202-204 | the run with the id; None exactly when there is none |
| ListingService.FindRunById | app/services/listing_service.py:202 | in a run table numbered from 1, run id n is at position n - 1 |
| ListingService.RetirementListings | app/services/listing_service.py:216-232 | exactly the retirement listings within the given price bounds, state and city, each as often as in the table (a permutation of the matching rows), ordered by last update, newest first |
| ListingService.Store.constructor | app/database.py:196-198 | every table starts empty |
| ListingService.Store.Tick | app/database.py:49-52 | reads the clock and advances it; no table changes |
| ListingService.Store.SaveOrUpdateListing | app/services/listing_service.py:23-107 | the listings and snapshots tables and the result are those of `Upsert` on the content hash of the data at the current time; the other tables are unchanged |
| ListingService.Store.QueueListingForDetails | app/services/listing_service.py:110-128 | the queue becomes `Enqueue` of the old queue; the other tables are unchanged |
| ListingService.Store.SaveListingDetail | app/services/listing_service.py:145-169 | an existing row is updated column by column and marked completed; otherwise one completed row is appended, or a TypeError for an unknown key; rows keep their listings |
| ListingService.Store.MarkQueueProcessing | app/services/listing_service.py:172-175 | only the row's status changes, to processing |
| ListingService.Store.MarkQueueCompleted | app/services/listing_service.py:178-182 | only status (completed) and processed_at change |
| ListingService.Store.MarkQueueFailed | app/services/listing_service.py:185-191 | status failed, retry count up by exactly one, error and processed_at recorded; nothing else changes |
| ListingService.Store.CreateScrapeRun | app/services/listing_service.py:194-198 | one new "running" run with zero counters is appended and its id returned |
| ListingService.Store.UpdateScrapeRun | app/services/listing_service.py:201-209 | an unknown id changes nothing; otherwise only that run gets the named columns set |
| ListingService.Store.MarkListingInactive | app/services/listing_service.py:235-240 | the listing with the external id becomes inactive and updated now; an unknown id changes nothing |
| ScrapeJob.SummaryData | app/parsers/bizbuysell.py:328-342 | the listing dictionary holds external_id first and then every listing column; only asking_price may be NULL |
| ScrapeJob.SummaryFillsRequired | app/database.py:35-56 | a parsed listing never leaves a NOT NULL listing column empty |
| ScrapeJob.SummaryUpsertSucceeds | app/scheduler/scrape_job.py:40-43 | upserting a parsed listing with a non-empty id never raises |
| ScrapeJob.SaveAndQueue | app/scheduler/scrape_job.py:40-55 | the upsert's tables and outcome, then a new listing queued at priority 10, a changed one at 5, an unchanged or failed one not queued |
| ScrapeJob.SaveStep | app/scheduler/scrape_job.py:40-55 | storing one listing: ValueError without a truthy external id, otherwise a raise only for a new row missing a NOT NULL column; listings grow by one on an insert, snapshots on an insert or a change; the table stays well formed |
| ScrapeJob.SaveStepIs | app/scheduler/scrape_job.py:40-55 | the step is `Upsert` on the content hash at the current clock, then the queueing of a new or changed listing at the next reading |
| ScrapeJob.SaveAll | app/scheduler/scrape_job.py:39-55 | a page's listings stored in order: one outcome each; listings grow by the inserted count, snapshots by inserted + changed |
| ScrapeJob.SaveAllRaises | app/scheduler/scrape_job.py:40-55 | the k-th outcome is the ValueError when the k-th dictionary has no truthy external id, and otherwise raises only for a new row missing a NOT NULL column |
| ScrapeJob.SummariesRaise | app/scheduler/scrape_job.py:40-55 | storing parsed listings, the k-th raises exactly when its external id is empty |
| ScrapeJob.SummaryDatasRaise | app/parsers/bizbuysell.py:328-342 | the k-th listing dictionary has a truthy external id exactly when the summary's is non-empty, and fills every NOT NULL column |
| ScrapeJob.CountsPartition | app/scheduler/scrape_job.py:44-55 | every outcome is exactly one of new, updated, unchanged or raised: the four counts add up to the number of listings |
| ScrapeJob.AddedAppend | app/scheduler/scrape_job.py:44-55 | counting two runs of outcomes one after the other equals counting them together |
| ScrapeJob.QueuedAfterArms | app/scheduler/scrape_job.py:44-53 | after a new or changed listing is saved it has a pending or processing queue row of at least its priority |
| ScrapeJob.Tallied | app/scheduler/scrape_job.py:44-55 | one stored listing adds one to the counter of its outcome (new_listings, updated_listings or errors) and a kept one adds nothing; listings_found is untouched |
| ScrapeJob.CompletedSearchRecorded | app/scheduler/scrape_job.py:60-71 | the completed search run records found, new, updated, errors, "completed" and the finish time, and keeps its other columns |
| ScrapeJob.FailedRecorded | app/scheduler/scrape_job.py:73-84 | the failed run records errors + 1, "failed", the message and the finish time, and keeps its counters |
| ScrapeJob.SavePage | app/scheduler/scrape_job.py:39-55 | the tables become those of storing the page's listings in order (`SaveAll`); new_listings, updated_listings and errors grow by the inserted, changed and raised outcomes; details and runs are untouched |
| ScrapeJob.StoreResults | app/scheduler/scrape_job.py:36-55 | the listings parsed from the page's cards, stored as `SavePage` states, with listings_found grown by their number |
| ScrapeJob.StepFrom | app/scheduler/scrape_job.py:35-58 | a step succeeds exactly when the page fetches and a next URL is found, and then leads to that URL |
| ScrapeJob.VisitPage | app/scheduler/scrape_job.py:34-58 | the page's listings (none when the fetch raised) are stored and counted as `StoreResults` states, and the step is `StepFrom` the URL |
| ScrapeJob.SaveWalk | app/scheduler/scrape_job.py:31-58 | the listings of the fetched pages stored page after page: one outcome per listing found; listings grow by the inserted count, snapshots by inserted + changed |
| ScrapeJob.SaveWalkRaises | app/scheduler/scrape_job.py:40-55 | over a whole walk, a listing's save raises exactly when its external id is empty |
| ScrapeJob.WalkStoredStep | app/scheduler/scrape_job.py:31-58 | storing one more page extends the walk's tables and counters by that page's |
| ScrapeJob.WalkExtends | app/scheduler/scrape_job.py:31-34 | appending an unvisited successor keeps the fetched URLs a walk from the target URL without repeats |
| ScrapeJob.CloseRun | app/scheduler/scrape_job.py:60-84 | the final update sets the run's statistics at a fresh clock reading and changes nothing else |
| ScrapeJob.Walk | app/scheduler/scrape_job.py:31-58 | the fetched URLs start at the target, follow the next links and never repeat; the tables are those of storing every listing found, in order; listings_found is their number and new, updated and errors count the inserted, changed and raised outcomes; the loop stops on an escaped error or on a next URL already visited |
| ScrapeJob.RunSearchScrape | app/scheduler/scrape_job.py:17-86 | one new run row, closed exactly once: "completed" with listings_found, new_listings, updated_listings and errors equal to the listings found and their inserted, changed and raised outcomes when the walk revisits a URL; "failed" with errors + 1 and the message when an exception escapes; listings, snapshots and queue are those of storing every listing found |
| ScrapeJob.ScrapeDetail | app/scheduler/scrape_job.py:117-130 | a failed fetch returns its message; a successful save leaves a detail row for the listing; rows keep their listings and no other table changes |
| ScrapeJob.SettledOnFailure | app/scheduler/scrape_job.py:112-115 | a failed item with "Listing not found" for a missing listing is settled |
| ScrapeJob.SettledOnSuccess | app/scheduler/scrape_job.py:123-128 | a completed item whose listing has a detail row is settled |
| ScrapeJob.ProcessItem | app/scheduler/scrape_job.py:104-134 | only the item's own queue row changes; the result is Scraped exactly when the row ends completed with a detail row, Errored exactly when it ends failed with its listing present (its error message recorded), Missing exactly when the listing is missing ("Listing not found"); the retry count grows by one unless Scraped, a Scraped row keeps its error message, priority and creation time are kept, and the processing time is a clock reading taken during the call |
| ScrapeJob.DetailRunRecorded | app/scheduler/scrape_job.py:136-145 | the completed details run records pages scraped, errors, "completed" and the finish time, and keeps its other columns |
| ScrapeJob.ProcessNext | app/scheduler/scrape_job.py:104-134 | one more batch item settles; detail_pages_scraped counts the items so far that ended completed and errors those that ended failed with their listing present; rows outside the batch stay as they were |
| ScrapeJob.ProcessBatch | app/scheduler/scrape_job.py:104-134 | every batch item ends completed or failed; detail_pages_scraped is the number that ended completed, errors the number that ended failed with their listing present, and with the missing listings they make up the batch; rows outside the batch are unchanged |
| ScrapeJob.BatchDistinct | app/services/listing_service.py:131-138 | the pending batch never holds the same queue row twice |
| ScrapeJob.RunDetailScrape | app/scheduler/scrape_job.py:89-160 | the batch is `PendingDetailScrapes` of the queue at batch_size, each item settled and counted as `ProcessBatch` states; one new details run is appended and recorded as completed with those two counters |
| GoogleMaps.NewIngest | app/leadgen/ingest/google_maps.py:29-59 | ValueError for a blank query, then a blank location, then no API key (argument, else environment); otherwise stripped query and location and limit clamped to at least 1 |
| GoogleMaps.NonEmptyStripped | app/leadgen/ingest/google_maps.py:102 | the stripped non-empty parts, none of which contains a comma |
| GoogleMaps.AddressParts | app/leadgen/ingest/google_maps.py:102 | every part is non-empty, stripped and free of commas |
| GoogleMaps.ExtractCityState | app/leadgen/ingest/google_maps.py:98-110 | the state is always "TN"; a city exactly when the address has at least two parts, and then it is the second-to-last part |
| GoogleMaps.StateOfPart | app/leadgen/ingest/google_maps.py:106-109 | the " TN" test on the last part leaves the state "TN" either way |
| GoogleMaps.CityOfThreeParts | app/leadgen/ingest/google_maps.py:98-110 | "street, city, tail" gives (city, "TN") |
| GoogleMaps.NashvilleAddress | tests/test_google_maps_ingest.py:103 | example: "123 Main St, Nashville, TN 37203" gives ("Nashville", "TN") |
| GoogleMaps.MappedResult | app/leadgen/ingest/google_maps.py:112-156 | no lead exactly for a blank title; the vendor name is the stripped title; city and state come from the address; source_url is place_id_search, else website, else the Maps home page; query, location, ids and type are carried over |
| GoogleMaps.NormalizeIdempotent | app/leadgen/ingest/google_maps.py:183-187 | a stripped, lower-cased key stays the same when normalised again |
| GoogleMaps.DedupeKeyIs | app/leadgen/ingest/google_maps.py:183-187 | the key is place_id, else data_id, else the vendor name, stripped and lower-cased |
| GoogleMaps.FreshSnoc | app/leadgen/ingest/google_maps.py:188-191 | a candidate is kept exactly when its key is neither seen before the run nor the key of a lead kept earlier |
| GoogleMaps.FreshDistinct | app/leadgen/ingest/google_maps.py:188-191 | kept leads have pairwise different keys, none of them in the loaded seen set |
| GoogleMaps.FreshCovers | app/leadgen/ingest/google_maps.py:188-191 | every candidate's key is seen or belongs to a kept lead |
| GoogleMaps.FreshInOrder | tests/test_google_maps_ingest.py:92-94 | kept leads are a subsequence of the candidates, in page order |
| GoogleMaps.Take | app/leadgen/ingest/google_maps.py:193-194 | at most n elements, a prefix, all of them when there are no more than n |
| GoogleMaps.LoadSeenIds | app/leadgen/ingest/google_maps.py:61-72 | empty when dedupe is off or no file was read; otherwise exactly the stripped, lower-cased forms of the non-blank stored ids; every key in it is non-empty and already normal |
| GoogleMaps.IdBeforeIsStrictWeakOrder | app/leadgen/ingest/google_maps.py:79 | the string order of `sorted` is a strict weak order |
| GoogleMaps.SaveSeenIds | app/leadgen/ingest/google_maps.py:74-81 | nothing is written when dedupe is off; otherwise every seen id, each once, in sorted order |
| GoogleMaps.ReloadSavedIds | app/leadgen/ingest/google_maps.py:61-81 | loading what was saved gives back the seen set (less the empty key) |
| GoogleMaps.ScanStep | app/leadgen/ingest/google_maps.py:188-191 | one row of the scan keeps `records` equal to the fresh leads read so far and `seen_ids` equal to the loaded set plus their keys |
| GoogleMaps.ScanPage | app/leadgen/ingest/google_maps.py:176-194 | the page scan adds the fresh leads of the rows it reads, stops early only on reaching the limit, and reports how many it added |
| GoogleMaps.EmptyPage | app/leadgen/ingest/google_maps.py:172-174 | an empty page adds no candidates |
| GoogleMaps.PageRead | app/leadgen/ingest/google_maps.py:170-198 | after a page, the records are the fresh leads of what was read, and a page cut short means the limit was reached |
| GoogleMaps.TakeOfKept | app/leadgen/ingest/google_maps.py:193-194 | stopping at the limit yields the first `limit` fresh leads of all candidates |
| GoogleMaps.FetchPages | app/leadgen/ingest/google_maps.py:166-198 | every page before the last answered; the result is the last page's error exactly when its request raised; otherwise the records are the first `limit` fresh leads of the pages read; fewer than `limit` means the last page added nothing; every earlier page added at least one; seen = loaded set plus the record keys |
| GoogleMaps.Fetch | app/leadgen/ingest/google_maps.py:165-202 | a page whose request raises ends the fetch with that error and nothing is saved; otherwise the records are the first `limit` fresh leads (page order, keys new and pairwise different) of the pages read, the loop having stopped on an empty or unproductive page or at the limit; the ids saved are the loaded ones plus the record keys, and nothing is saved when dedupe is off |
| Sheets.ColumnsDistinct | app/leadgen/export/sheets.py:10-30 | 19 columns, pairwise different |
| Sheets.SafeFloat | app/leadgen/export/sheets.py:33-39 | None stays None, numbers and booleans convert, a string converts exactly when `float()` accepts it, anything else gives None |
| Sheets.SafeFloatIdempotent | app/leadgen/export/sheets.py:33-39 | converting a converted value changes nothing |
| Sheets.DictOrEmpty | app/leadgen/export/sheets.py:45-50 | a value that is not a dictionary is treated as an empty one |
| Sheets.Timestamp | app/leadgen/export/sheets.py:51 | a non-empty fetched_at_utc is used verbatim, otherwise the current time |
| Sheets.Normalize | app/leadgen/export/sheets.py:42-72 | one entry per column, in column order, each as the per-column rule gives it |
| Sheets.NormalizedSource | app/leadgen/export/sheets.py:53 | the record's source when the key is present, else "google_maps" |
| Sheets.NormalizedRecordText | app/leadgen/export/sheets.py:54-68 | vendor_name, city and source_url are the record's truthy value, else "" |
| Sheets.NormalizedCategory | app/leadgen/export/sheets.py:55 | contract_category, else raw_data.type, else "" |
| Sheets.NormalizedState | app/leadgen/export/sheets.py:58 | the record's truthy state, else "TN" |
| Sheets.NormalizedRawText | app/leadgen/export/sheets.py:56-70 | address, phone, website, reviews, the ids, query and location are raw_data's truthy value, else "" |
| Sheets.NormalizedNumbers | app/leadgen/export/sheets.py:61-67 | rating, latitude and longitude are the safe conversions of raw_data's and gps_coordinates' values |
| Sheets.NormalizedFetchedAt | app/leadgen/export/sheets.py:71 | fetched_at_utc is the given non-empty time, else now |
| Sheets.NonDictRawIsEmpty | app/leadgen/export/sheets.py:45 | a raw_data that is not a dictionary gives "" for all raw text and None for the numbers |
| Sheets.NonDictGpsIsEmpty | app/leadgen/export/sheets.py:46-50 | gps_coordinates that is not a dictionary gives no latitude or longitude |
| Sheets.Header | app/leadgen/export/sheets.py:78 | the header row is exactly the column names |
| Sheets.RowOfNormalized | app/leadgen/export/sheets.py:81 | the row of a normalised record lists its entries in column order, each column present |
| Sheets.BuildRows | app/leadgen/export/sheets.py:75-82 | the header, then one row per record, each with one cell per column |
| Sheets.BuildRowsCells | app/leadgen/export/sheets.py:79-81 | row i + 1, column j is record i's normalised value for column j |
| Sheets.ExportToSheet | app/leadgen/export/sheets.py:104-139 | ValueError for an empty spreadsheet id, then an empty credentials path; otherwise writes the built rows into a sheet of max(1000, rows + 10) rows and max(26, columns + 2) columns, and returns the sheet URL |
| Sheets.NormalizedLead | app/leadgen/ingest/google_maps.py:129-131 | an ingested lead normalises to source "google_maps" and its vendor name |
| Sheets.NormalizedLeadPlace | app/leadgen/ingest/google_maps.py:138-141 | an ingested lead keeps its state and source URL |
| Sheets.NormalizedLeadSearch | app/leadgen/ingest/google_maps.py:142-144 | an ingested lead carries the search's query and location into the row |
| Sheets.NormalizedLeadCategory | app/leadgen/ingest/google_maps.py:135 | an ingested lead's category is its type when truthy, else "" |
| Sheets.SampleVendor | tests/test_google_maps_export.py:40-41 | example: the sample record normalises to vendor "Sunrise Coffee" |
| Sheets.SampleQuery | tests/test_google_maps_export.py:14-35 | example: the sample record's query "coffee shops" is carried over |
| Sheets.SampleLatitude | tests/test_google_maps_export.py:44 | example: the sample latitude is 36.1627 |
| Sheets.SampleRow | tests/test_google_maps_export.py:48-50 | example: the sample row starts "google_maps", "Sunrise Coffee" |

## Left out

- Network and browser I/O: `fetch_page`, `fetch_page_with_metadata`, `fetch_page_unlocker`, `fetch_page_playwright` and SerpApi's `_search_page`. Each page is an argument: `fetch`, `fetchDetail` or `search`, whose answer is the page or the error its request raised (an HTTP error status from `raise_for_status`, a time-out). Headers and retries are not modelled.
- Environment reads and proxy assembly: `_use_web_unlocker`, `_unlocker_token`, `_build_brightdata_proxy_url`, `_build_brightdata_proxy_config`, `_apply_zone_override_to_url` and `secrets.token_hex`. Only the user-name zone rewrite is modelled, with the zone passed in.
- HTML and JSON-LD parsing: BeautifulSoup selection, `_extract_json_ld`, `_extract_json_ld_description`, `_extract_text_from_candidates`, `_extract_labeled_value`. Their results enter as records: `Card`, `Row`, `DefinitionList`, `DetailTexts`. An element whose extraction raises an unexpected exception is not modelled; the one raise that is modelled is the unguarded `float()`.
- URL handling: `urljoin` is a `resolve` argument. `urlparse`/`parse_qs`/`urlencode` are an abstract `Url` of an address and an optional `page` value. Other query parameters and their order are not modelled.
- BizBuySell.ParsePrice: computes with exact decimal numbers, where the source converts to a binary float and multiplies. Where the two differ, the model answers the exact value:
  - a whole number beyond 2^53 loses digits in the source ("$12345678901234567891" reads as 12345678901234567168);
  - a fraction can round either way ("0.99999999999999999 million" is 1000000 in the source, 999999 here), and a product can truncate one lower;
  - a run of 309 or more digits makes `float()` infinite and `int()` raise OverflowError, which drops the card in the source; here it is a number.
- Text.ParseInt: `int()` also accepts underscores between digits ("1_0") and non-ASCII digits; both are None here, so a `page` parameter such as "1_0" is the ValueError here and page 11 in the source.
- Text.IntLiteralError: the message quotes the text with single quotes. Python's `repr` uses double quotes when the text holds a single quote and none, and escapes special characters.
- BizBuySellDetail.KeyValuePairs: the value under every key is stated, but not the order of the keys (row keys in first-recorded order, then the keys added from definition lists), which is the order `BizBuySellDetail.FinancialDetails` writes into financial_details.
- Sheets.SafeFloat: `float(str)` is the `parse` argument. NaN, infinities and the float rounding of JSON numbers are not modelled. Nor is the OverflowError of `float()` on an integer beyond the float range: `_safe_float` does not catch it, so the export raises there, while the model gives `Num`.
- Database and session behaviour:
  - SQLAlchemy sessions, flush/commit/close and transactions are not modelled. A raised error leaves the tables as they were, and a session that an IntegrityError leaves needing a rollback is not modelled.
  - The session is created with `autoflush=False` (app/database.py:193), so `queue_listing_for_details` does not see a queue row added earlier in the same page. Two cards on one page with different keys, the same external id and different content queue that listing twice in the source; the commit then violates the unique listing_id and the run stays "running". Here `Enqueue` sees the first row and re-arms it.
  - `onupdate` timestamps are not modelled.
  - Only the columns the listing service writes are modelled; other tables (user actions) are not.
- ListingService.Upsert: an update that writes None into title, url or is_retirement_listing fails in the source at the next flush, after the function has returned; here the merge succeeds and stores the None.
- `compute_content_hash`: SHA-256 over `json.dumps(..., default=str)` is the deterministic `digest` argument applied to the key-sorted entries.
- `datetime.utcnow()` and `datetime.now()` are readings of the store's counter clock, or a `now` argument in the sheet export. Time formats are not modelled. `normalize_google_maps_record` reads `datetime.now(timezone.utc)` once per record, but all rows of one export share one `now` here, so rows without `fetched_at_utc` cannot carry different times.
- `get_new_listings` and `record_user_action` are not part of this model: neither is used by the jobs, and `UserAction` is not modelled.
- Database.SetDetailAttr: only the value columns are modelled as attributes. `hasattr` is also true for a detail's `id` and `listing_id`, which `setattr` would rewrite in the source; `parse_detail_page` never produces either, and here they change nothing.
- Database.SetRunAttr: likewise `hasattr` is true for a run's `id`, which the source would rewrite; the jobs' statistics never name it, and here it changes nothing.
- ListingService.AcceptedByConstructor: the constructor call also accepts an `id` in the data; here it is the TypeError. (A `listing_id` is passed twice there, a TypeError in both.)
- ListingService.DetailSavedKeeps: "moves no row to another listing" holds because a `listing_id` in the data is ignored; in the source such data would move the row.
- ListingService.Store.SaveListingDetail: key columns in the data are ignored on update and refused on insert, as the lines above say.
- ListingService.Store.MarkQueueFailed: retry counts are naturals, so the `retry_count or 0` path for a NULL count is not modelled.
- ListingService.ApplyRunStats: its own contract states only that the id is kept. What it sets is stated by `ApplyRunStatsColumns`, `ApplyRunStatsAt` and `ApplyRunStatsUnnamed`.
- ScrapeJob.Walk: the `while` loop of the search pass is bounded by a `fuel` argument. Running out of fuel is reported as `OutOfFuel`, and the run row stays "running".
- ScrapeJob.RunSearchScrape: has the same `fuel` bound as `Walk`, and says nothing about a run that runs out of it.
- ScrapeJob.SavePage: the tables after the page are stated as `SaveAll`, whose per-listing steps `SaveStepIs` and `SaveAndQueue` state.
- ScrapeJob.ScrapeDetail: states that a successful save leaves a detail row for the listing, not the row's column values. Those are stated for `Store.SaveListingDetail` by `ApplyDetailColumns`.
- Scheduling and process glue: `start_scheduler`, `run_now`, `init_db` and asyncio.
- Google Maps file handling:
  - `save_intermediate` and the JSON files are not modelled.
  - The seen-ids file is read as an optional list of strings; a missing, unreadable or non-list file reads as none.
  - `str()` of non-string ids and titles is not modelled (all are strings here).
  - `hl`, `gl` and `output_dir` are not modelled.
- Sheet export: gspread authentication, worksheet lookup and creation, `clear` and `update` are the returned `SheetWrite` plan.
- CSV export (`export_google_maps_records_to_csv`) is not modelled.
- Text is ASCII: `lower`, `upper`, `strip` and `split` follow Python's ASCII behaviour, and Unicode case mapping and Unicode white space are not modelled. Likewise `\d` in the price and id patterns (`BizBuySell.FirstNumericRun`, `BizBuySell.KeepNumChars`, `BizBuySell.IdSegmentFrom`) matches only "0"-"9", while Python's `\d` and `float()` also accept every other Unicode decimal digit.
