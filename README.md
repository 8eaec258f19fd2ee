# mas-crawl bookkeeping core, in Dafny

mas-crawl crawls the Mac App Store. It has these parts:

- A scrapy spider (`spider.py`) reads the store's listing pages. It queues the id of every app link in a deduplicating batch queue (`misc/batch_list.py`). It looks the ids up in batches of 100 through the iTunes lookup API.
- A driver starts a crawl and records it in a table of crawl records. `schedule.py` does this through scrapyd and psycopg2 (`misc/CrawlDB.py`). `crawl.py` does it in-process, through SQLAlchemy (`misc/db.py`).
- When the crawl is done, the driver publishes the artifact (a jsonlines file) under a fixed "latest" path. `crawl.py` then compresses it.
- A summariser (`summarise.py`) goes through the finished crawls. It adds every app id it has not seen before to the registry of known apps. It marks each crawl summarised.

The project models that bookkeeping in Dafny. The parts are:

- `BatchedList` (`batch_list.dfy`) is a class over `seq` fields. Its invariant is FIFO order with no duplicates, and nothing both pending and already flushed. Each method is proved against `NextBatch`/`Enqueue`.
- The two registries are classes holding in-memory tables:
  - `PgStore` (`pg_store.dfy`) models psycopg2. `add_mac_apps` refuses the whole call on any overlap. Crawl records have a write-once id.
  - `OrmStore` (`orm_store.dfy`) models SQLAlchemy. It is scoped by store, adds only the set difference, and has commit/rollback sessions.
- `Schedule` and `Crawl` build artifact paths (injective in store and timestamp). They model the record and artifact steps of both drivers, in order, with every exit an exception can take.
- `Spider` proves id extraction sound and complete against the regular expression. The lookup URL is proved to round-trip. The idle drain loop is proved to request every pending id, in order, in chunks of at most 100.
- `Summarise` models the summarisation loop over the crawl table, step by step. It is proved against the stopping point `Halt`, the ids gathered so far (`Collected`) and the crawl table after marking (`Marked`).

Inputs replace the outside world:

- the clock: a `Timestamp` parameter;
- the file system: a map from path to the records of a jsonlines file;
- the outcome of every database call: the `storageOk`, `commitOk`, `persistFails` and `failAt` parameters;
- what the spider wrote: a `feed` parameter.

Python exceptions become `Err` values of `Wrappers.Result`.

## Model

| member | source | states |
|---|---|---|
| BatchList.Chunks | misc/batch_list.py:25-37 | repeated partial batches cut the items into non-empty pieces of at most the batch size; all but the last are full; concatenated, they give the items back |
| BatchList.NextBatch | misc/batch_list.py:27-32 | a batch is a prefix of the pending items, at most the batch size long; None exactly when fewer than a batch remain and either none remain or only full batches are asked for |
| BatchList.ChunksStep | misc/batch_list.py:29-30 | a partial getBatch hands out the first chunk; the remaining chunks are those of what is left |
| BatchList.Enqueue | misc/batch_list.py:10-15 | a sequence of adds keeps the old pending items as a prefix; it gains exactly the added items that were never flushed |
| BatchList.EnqueueOne | misc/batch_list.py:12-15 | one add is refused when the item is pending or flushed, and appended otherwise |
| BatchList.EnqueueAppend | misc/batch_list.py:10-15 | adding xs then ys is adding xs + ys |
| BatchList.EnqueueFresh | misc/batch_list.py:10-15 | distinct new items are all accepted, in order |
| BatchList.BatchedList.constructor | misc/batch_list.py:4-8 | the queue starts empty with an empty history, and the invariant holds |
| BatchList.BatchedList.Add | misc/batch_list.py:10-15 | a no-op when the item is pending or was flushed; otherwise the item is appended at the tail; the invariant is kept |
| BatchList.BatchedList.Contained | misc/batch_list.py:17-19 | true exactly when the item was ever flushed |
| BatchList.BatchedList.Contains | misc/batch_list.py:21-23 | true exactly when the item is pending |
| BatchList.BatchedList.Count | misc/batch_list.py:39-41 | the number of pending items |
| BatchList.BatchedList.GetBatch | misc/batch_list.py:25-37 | a full batch from the head, or everything when partial batches are allowed, or None with nothing changed; a returned batch is appended to the history; FIFO and no duplicates are kept |
| BatchList.Scenario | misc/batch_list.py:10-37 | with batch size 3 and adds 1..4: the first full batch is [1,2,3], there is no second full batch, and the partial batch is [4] |
| BatchList.FlushedItemRefused | misc/batch_list.py:12-19 | an item handed out in a batch is refused when added again, and `contained` reports it |
| PgStore.UpdateWhereIdHitsOneRow | misc/CrawlDB.py:179-180 | with unique ids, the UPDATE by id rewrites exactly the row carrying that id |
| PgStore.DbCreateTable | misc/CrawlDB.py:84-96 | no statement runs unless the lower-cased SQL starts with "create table"; otherwise the database's answer is returned |
| PgStore.CrawlsSchemaRefused | misc/CrawlDB.py:17-46 | the guard as written refuses the mac_crawls schema, whose literal starts with a line break, and accepts the mac_apps schema |
| PgStore.UpperCreateTable | misc/CrawlDB.py:84-86 | an upper-case CREATE TABLE statement passes the lower-cased prefix test |
| PgStore.DbCreateTableStripped | misc/CrawlDB.py:84-96 | the guard with leading white space ignored creates nothing unless the database agrees |
| PgStore.StrippedGuardAcceptsIndented | misc/CrawlDB.py:84-86 | the corrected guard accepts a CREATE TABLE statement after any run of leading white space |
| PgStore.StrippedGuardAcceptsSchemas | misc/CrawlDB.py:17-46 | the corrected guard accepts both schemas of setup_tables |
| PgStore.StrippedGuardAgrees | misc/CrawlDB.py:84-86 | on SQL without leading white space, the corrected guard and the guard as written agree |
| PgStore.IdText | misc/CrawlDB.py:159 | `str` of the id: "None" for no id, otherwise decimal text that parses back to the id; never a comma |
| PgStore.BoolText | misc/CrawlDB.py:159 | `str` of a flag: "True" exactly when set, "False" exactly when not |
| PgStore.CrawlText | misc/CrawlDB.py:157-160 | the six fields through `str`, joined by ", " between parentheses; when store, outfile and kind hold no comma, the text between the parentheses splits on commas back into the six fields, each after the first with the separator's space in front |
| Text.SplitCommaJoin | misc/CrawlDB.py:160 | splitting `", ".join(xs)` on commas gives xs back, spaces in front of all but the first, when no part holds a comma |
| PgStore.MacCrawl.constructor | misc/CrawlDB.py:116-139 | the 6-tuple is copied in order; a record not from the database has id None |
| PgStore.MacCrawl.NewCrawl | misc/CrawlDB.py:142-145 | id None, empty store, outfile and kind, both flags false, no connection |
| PgStore.MacCrawl.ToString | misc/CrawlDB.py:157-160 | the record's six fields through `str`, joined by ", " between parentheses |
| PgStore.MacCrawl.Persist | misc/CrawlDB.py:165-186 | prefers the record's own connection and fails the assertion without one; inserts a new row when the id is None and otherwise updates the row with that id; answers false and changes nothing on a database failure; the registry is untouched |
| PgStore.CrawlDB.constructor | misc/CrawlDB.py:193-221 | the tables as given, with the invariant |
| PgStore.CrawlDB.GetMacApps | misc/CrawlDB.py:226-229 | every stored trackId, in storage order |
| PgStore.CrawlDB.AddMacApps | misc/CrawlDB.py:236-248 | refuses the whole call, adding nothing, when any id is already stored; otherwise the ids are appended in order, up to the insert that fails |
| PgStore.CrawlDB.AddMacApp | misc/CrawlDB.py:232-233 | add_mac_apps of the single id |
| PgStore.CrawlDB.GetMacCrawls | misc/CrawlDB.py:253-256 | one fresh, distinct record per row, in table order, each bound to this connection |
| PgStore.CrawlDB.AddMacCrawl | misc/CrawlDB.py:258-259 | persist with this connection: the record's own connection, when it has one, is the one written and this one is untouched; an INSERT when the id is None, an UPDATE by id otherwise, no change when the database fails |
| PgStore.PersistTwiceInsertsTwice | misc/CrawlDB.py:175-178 | persisting the same new record twice inserts two rows |
| OrmStore.StoreIds | misc/db.py:45-53 | the ids of exactly the rows of the given store |
| OrmStore.AddMergesStore | misc/db.py:62-68 | after an add, the store's ids are the old ids plus the given ids; every other store is unchanged |
| OrmStore.AddIdempotent | misc/db.py:62-68 | adding the same ids twice is adding them once |
| OrmStore.AddIgnoresRepeats | misc/db.py:64 | only the set of given ids matters |
| OrmStore.AddCount | misc/db.py:62-68 | the store grows by exactly the given ids it did not know |
| OrmStore.MakeEngine | misc/db.py:8-19 | the sqlite or postgresql URL; any other engine raises NameError |
| OrmStore.PostgresUrlFields | misc/db.py:11-17 | the postgresql URL splits back into user, password, address and name |
| OrmStore.Session.constructor | misc/db.py:34 | a new session sees the committed tables |
| OrmStore.Database.constructor | misc/db.py:23-28 | the committed tables as given |
| OrmStore.Database.BeginScope | misc/db.py:32-36 | a fresh open session over the committed tables |
| OrmStore.Database.EndScope | misc/db.py:35-42 | commits when the body completed and the commit works; otherwise rolls back and raises; always closes |
| OrmStore.Database.GetMacApps | misc/db.py:45-53 | the ids of exactly the store's rows, as the session sees them |
| OrmStore.Database.AddMacApps | misc/db.py:62-68 | the session's registry becomes the old one plus the given ids for the store; known ids are skipped, never an error |
| OrmStore.Database.AddMacApp | misc/db.py:57-58 | add_mac_apps of the single id |
| OrmStore.Database.AddMasCrawl | misc/db.py:76-77 | the record joins the session's crawl table |
| Schedule.Datestring | schedule.py:24-26 | digits, dashes and one T, 15 characters longer than the year |
| Text.IntToString | spider.py:47 | `str(app)`: an optional minus sign then the decimal digits |
| Text.ParseIntToString | spider.py:47 | the text of an integer parses back to it |
| Text.IntToStringInjective | spider.py:47 | distinct ids give distinct queue keys |
| Text.Lower | misc/CrawlDB.py:85 | `str.lower()` on ASCII: same length, each upper-case letter lowered |
| Schedule.DatestringLayout | schedule.py:24-26 | years from 1000 on give YYYY-mm-ddTHH-MM-SS |
| Schedule.ParseDatestring | schedule.py:24-26 | parses exactly the strings of date-string shape |
| Schedule.DatestringRoundTrip | schedule.py:24-26 | parsing a date string gives its timestamp back |
| Schedule.DatestringInjective | schedule.py:24-26 | distinct moments give distinct date strings |
| Schedule.CreateOutputFile | schedule.py:29-38 | "file://" + the artifact path; an existing artifact fails the assertion |
| Schedule.OutputPathInjective | schedule.py:31-32 | two crawls share an artifact path exactly when store and moment agree |
| Schedule.ScrapeFinished | schedule.py:59-64 | an empty status fails the assertion; otherwise true exactly for "finished" |
| Schedule.FirstWithOutfile | schedule.py:75-80 | the position of the first row with that outfile; None exactly when there is none |
| Schedule.CrawlForOutfile | schedule.py:67-80 | a record of the first row with that outfile; ValueError when none matches |
| Schedule.ScheduleMacScraper | schedule.py:41-56 | a new daily crawl, in progress and not summarised, is appended as a row when the insert works; the job is requested with the outfile as its feed URI |
| Schedule.IndexTextAppend | schedule.py:95-97 | the index text of one more app is one more line |
| Schedule.MacAppsIndexFile | schedule.py:83-99 | the text written is one "<id> \n" line per registry app, in registry order |
| Schedule.SplitIndexText | schedule.py:95-97 | split on line breaks, the text gives its lines back |
| Schedule.ParseIndexLinesRoundTrip | schedule.py:95-97 | the lines give the ids back |
| Schedule.IndexRoundTrip | schedule.py:95-97 | reading the index file gives the registry's ids, in order |
| Schedule.CompleteCrawl | schedule.py:129-138 | a missing artifact raises FileNotFoundError and an artifact at the latest path SameFileError, changing nothing; otherwise the latest path receives the artifact's records, and that copy stays whatever follows: ValueError when no row has the outfile, else the first row with it gets in_progress false when the update works |
| Schedule.FirstWithOutfileAppended | schedule.py:75-80 | a row appended for a new outfile is the one found for it |
| Schedule.LatestPathIsNotOutputPath | schedule.py:131-132 | the latest copy never overwrites an artifact |
| Schedule.StartCrawl | schedule.py:110-115 | an existing artifact fails before anything is recorded; otherwise the crawl is recorded and the job requested |
| Schedule.RunSchedule | schedule.py:102-138 | an existing artifact fails the assertion and changes nothing; otherwise the file system ends with the feed at the artifact and at the latest path, nothing else changed, and the crawl table is the old one plus the recorded row when the insert worked, with the first row for the outfile cleared of in_progress when the update works, or ValueError when no row has the outfile; when no earlier row names the artifact, the run succeeds exactly when the insert worked |
| Crawl.GetOutputFilepath | crawl.py:84-96 | the joined artifact path without a prefix; an existing file fails the assertion |
| Files.PathJoin | crawl.py:90-92 | `os.path.join`: an absolute name replaces the base; an empty base gives the name; a base ending in "/" is followed directly by the name; any other base by "/" and the name |
| Crawl.SameArtifactAsSchedule | crawl.py:84-96 | with schedule.py's directory and format, both drivers name the artifact alike, up to the "file://" prefix |
| Crawl.UpdateStaticLocation | crawl.py:55-63 | the static path receives a copy of the artifact; nothing else changes; a missing artifact raises FileNotFoundError and an artifact at the static path SameFileError |
| Files.Copy | crawl.py:63 | `shutil.copy2`: the destination receives the source's records and every other file is unchanged; a missing source raises FileNotFoundError and a copy onto itself SameFileError |
| Crawl.CompressFile | crawl.py:41-52 | path + ".gz" holds the artifact's records; the original remains exactly when kept; a missing artifact raises |
| Crawl.TrackIds | crawl.py:76 | the ids of exactly the entries that carry one |
| Crawl.ProcessOutputFile | crawl.py:66-81 | the store learns the artifact's ids; the answer is the store's size before and its growth; a missing artifact fails the assertion |
| Crawl.RecordCrawl | crawl.py:110-112 | reads the store's apps and records the crawl, in one committed session |
| Crawl.HarvestArtifact | crawl.py:121-123 | processes the artifact in a session that a failed assertion rolls back |
| Crawl.PublishThenCompress | crawl.py:126-130 | publishing a fresh artifact and compressing it leaves the static copy and the .gz file with the feed, no original, and every other file as it was |
| Crawl.DoCrawl | crawl.py:105-133 | the steps in order, each failure ending the crawl with its exception and the file system as far as it got: record (nothing written), spider feed, registry update and counts (a failed commit leaves the artifact on disk), static copy, compression with the original deleted, notice text |
| Spider.TrailingDigits | spider.py:12 | the length of the run of digits at the end |
| Spider.ExtractId | spider.py:9-16 | an extracted id is a non-empty run of digits |
| Spider.ExtractIdComplete | spider.py:9-16 | every URL of the accepted shape (prefix without line breaks, /id, digits, ?mt=12, an optional final line break) yields its digits |
| Spider.ExtractIdSound | spider.py:9-16 | every id extracted comes from a URL of that shape |
| Spider.TrelloLinkGivesId | spider.py:11 | the Trello example yields "1278508951" |
| Spider.StoreLinkGivesKey | spider.py:9-16 | an app's store link yields its queue key str(app) |
| Spider.GenrePageGivesNoId | spider.py:49 | the start page yields no id |
| Spider.LookupUrlRoundTrip | spider.py:74-77 | the lookup URL's query gives the batch back |
| Spider.DrainUrls | spider.py:89-95 | one lookup URL per batch, in order |
| Spider.AppKeys | spider.py:46-47 | the key of each known app is Some(str(app)) |
| Spider.SeedingKeepsAllApps | spider.py:46-47 | distinct known apps are all queued, in order |
| Spider.FoundId | spider.py:66-67 | the corrected add queues the id exactly for app links, and never None |
| Spider.FoundIds | spider.py:138-139 | the corrected adds of a page queue no None and at most one key per link |
| Spider.MacAppSpider.constructor | spider.py:41-49 | the store defaults to "de"; the known apps are queued; the genre page is the start URL |
| Spider.MacAppSpider.AddKeys | spider.py:46-47 | the queue receives the keys in order |
| Spider.MacAppSpider.AddKey | spider.py:66-67 | one add to the queue, as BatchedList.Add |
| Spider.MacAppSpider.QueuedAppsAdd | spider.py:66-67 | the extraction result is queued as it is, None included |
| Spider.MacAppSpider.QueuedAppsAddChecked | spider.py:66-67 | only an app link's id is queued; a queue without None keeps none |
| Spider.MacAppSpider.QueuedAppsGetRequest | spider.py:69-79 | None exactly when getBatch gives none; otherwise the lookup URL of the drawn batch; a batch holding None raises TypeError after being drawn |
| Spider.MacAppSpider.SpiderIdle | spider.py:82-97 | another spider's signal changes nothing; for this spider, with no None pending, every pending id is requested in order in chunks of at most 100 and the queue ends empty; a None pending raises TypeError, after the chunks before the failing one were requested and the failing chunk entered the history, with the chunks after it still pending |
| Spider.MacAppSpider.DrainQueue | spider.py:89-97 | the drain loop requests the chunks of the pending ids, in order, until none remain; on TypeError the requests are the lookup URLs of the None-free chunks before the failing one, the failing chunk holds None and has entered the history, and the rest stay pending |
| Spider.MacAppSpider.DrainStep | spider.py:90-95 | one pass of the drain loop draws the next chunk and requests it; it raises TypeError exactly when the drawn chunk (the first min(100, pending) items) holds None, and then states the requests, history and pending chunks at the failure |
| Spider.MacAppSpider.DrawLookup | spider.py:90-95 | one drain pass takes the first chunk into the history and turns it into its lookup URL, or raises TypeError exactly when that chunk holds None |
| Spider.MacAppSpider.ParseApplicationNames | spider.py:137-143 | every link's extraction result, None included, goes through add in page order; then only a full batch is requested: None when fewer than 100 are pending, otherwise the first 100 enter the history and give their lookup URL, or TypeError when they hold None |
| Spider.NonAppLinkQueuesNone | spider.py:137-140 | as written, a page with a non-app link leaves None pending unless None was handed out before |
| Spider.MacAppSpider.ParseApplicationNamesChecked | spider.py:137-143 | the same with the corrected add: only app ids are queued, and on a queue without None the request never raises |
| Spider.ExtractedKeys | spider.py:138-139 | one extraction result per link, in order |
| Spider.AlphaFollows | spider.py:106-117 | the link is followed, and a second page exactly for a link ending in letter= plus a capital |
| Spider.LetterLinkAlsoLowercase | spider.py:113-117 | the second page is the link with its last letter lower-cased |
| Spider.LetterLinkWithNewline | spider.py:113-117 | a letter link ending in a line break is followed twice unchanged |
| Spider.PaginationGoesOnePastTheEnd | spider.py:120-134 | no listed pages: pages 1 and 2; n listed pages: all of them plus page n+1 |
| Spider.SingleKeyDrain | spider.py:89-95 | one pending key is drained by one lookup |
| Spider.NonAppLinkBreaksLookup | spider.py:66-79 | a non-app link queues None, and the next batch raises TypeError while entering history |
| Spider.FailedBatchLosesApp | spider.py:69-79 | the app drawn in the failed batch is refused when its link is seen again |
| Spider.CheckedAddKeepsLookupWorking | spider.py:66-97 | with the corrected add, the same page queues nothing and the known app is looked up |
| Summarise.Resolve | summarise.py:32-39 | the plain path when it exists, else its .gz sibling, else ValueError |
| Summarise.ArtifactIds | summarise.py:43-47 | as written, any entry without a trackId raises KeyError; otherwise, or when such entries are skipped, the ids are exactly those the entries carry |
| Summarise.SkippingMatchesCrawl | summarise.py:43-45 | the corrected reading gathers exactly the ids crawl.py registers from the same artifact |
| Summarise.ReadingsAgree | summarise.py:45 | on an artifact whose entries all carry a trackId, the reading as written and the corrected reading agree |
| Summarise.CrawlIds | summarise.py:29-47 | an outfile without file:// fails the assertion; otherwise the path after it is resolved and read; the corrected reading never raises KeyError |
| Summarise.CompressedArtifactResolves | summarise.py:29-39 | a crawl's "file://" + path outfile reads the artifact; it still does after crawl.py compressed it, original kept or not |
| Summarise.Halt | summarise.py:20-47 | every crawl before the stopping point is skipped or read without error; the one at it is eligible and fails |
| Summarise.Collected | summarise.py:17-47 | the gathered ids are disjoint from the registry; they are exactly the new ids of the eligible crawls visited |
| Summarise.Marked | summarise.py:20-51 | only visited eligible crawls whose persist worked change, and only by becoming summarised; nothing is ever un-summarised |
| Summarise.ReadArtifact | summarise.py:43-47 | the inner loop gathers the artifact's ids that neither the registry nor the pass already has; as written it raises KeyError on an entry without a trackId |
| Summarise.VisitCrawl | summarise.py:20-51 | one iteration: skip, assert the prefix, resolve, read, then mark and persist before the next crawl |
| Summarise.VisitAll | summarise.py:20-51 | the loop stops exactly at Halt, with that crawl's exception; crawls before it are marked |
| Summarise.ListOf | summarise.py:54 | list(mac_apps) lists the set's members once each |
| Summarise.DistinctCount | summarise.py:54-56 | the list is as long as the set |
| Summarise.Summarise | summarise.py:12-56 | a halt leaves earlier crawls summarised and the registry untouched; otherwise the gathered ids are disjoint from the registry, so add_mac_apps never refuses them, and they are appended |
| Summarise.SecondPassIsNoOp | summarise.py:20-54 | after a complete pass, a second pass reads nothing, marks nothing and adds an empty list |
| Summarise.StrictPassWedged | summarise.py:45-51 | as written, a KeyError crawl stays unsummarised, so every later pass stops at it again; the corrected reading gets past it |
| Summarise.MissingTrackIdStopsPass | summarise.py:45 | a one-entry artifact without trackId raises KeyError as written and yields no id when skipped |
| Summarise.KnownAndNewIds | summarise.py:12-56 | with the corrected reading (entries without trackId skipped), registry {10}, artifact ids 10, 20 and one entry without an id: the pass adds [20] and marks the crawl summarised; as written this input raises KeyError (MissingTrackIdStopsPass) |

## Left out

- The lock of `BatchedList` and the spider's concurrent callbacks are left out. Each queue method is one atomic step.
- The spider's queue and start URLs are class attributes, shared by every instance (spider.py:25, 32). One spider owns one queue here.
- scrapy and scrapyd are left out: requests are URL strings, and `from_crawler`, `parse`, `parse_api_response`, `errback_custom`, CSS selection and the `crawler.engine.crawl` hand-off are not modelled.
- Schedule.RunSchedule: the `job_status` polling with `time.sleep` collapses into the job having finished. The job id that scrapyd returns is not modelled.
- Deleting the temporary app index file is not modelled, nor is creating it with `mkstemp` (schedule.py:92-93, 127); only its text is.
- Pushover notifications (crawl.py:24-38) are not sent; only the message text is built (Crawl.Notice).
- The argparse `main` functions are not modelled.
- The bytes of gzip and JSON are not modelled. A file is a sequence of records, and a `.gz` sibling holds the same records.
- An `Entry` with no trackId stands for a JSON object without the key. A `"trackId": null` value is not told apart from it.
- SQL and connection plumbing is not modelled: `db_read_config`, `db_exists_table`, `CrawlDB.__init__`/`setup_tables`, and the engine and session factories. Which table `setup_tables` creates is reduced to the guard `db_create_table` applies.
- `Database.get_mas_crawls` (misc/db.py:71-73) is not used by the modelled core.
- PgStore.MacCrawl.constructor: the runtime type assertions on the 6-tuple become Dafny's static types. The `id` setter's AssertionError becomes a `const` field that no code can assign.
- Summarise.Summarise: the `print` of the counts is left out. The order of `list(mac_apps)` is Python's set iteration order, modelled by choosing each next member freely.
- Summarise.Summarise: a failure of the final `add_mac_apps` is modelled as a prefix of inserts.
- Summarise.Summarise: the pass ignores that failure, and failed persists, as the source does.
- Text.Lower: only ASCII letters are lowered, which is all the SQL statements hold.
- Spider.ExtractId: `\d` is modelled as the ASCII digits. Python's `\d` on `str` also matches other Unicode decimal digits.
- Schedule.Datestring: years below 1000 are printed without padding, as the C library on Linux does; other platforms may pad `%Y` to four digits. The layout lemma covers years from 1000 on.
- PgStore.CrawlDB.GetMacApps and PgStore.CrawlDB.GetMacCrawls: the SELECTs have no ORDER BY; rows come back in storage order here. Summarise.Halt and Summarise.Marked depend on that order.
- Files.Copy: a copy onto itself is detected by equal path text only; two different paths naming one file through links or `..` are not modelled.
- crawl.py:112 constructs `MacCrawl(store=..., outfile=...)` from `misc.models`, which defines no `MacCrawl`, and calls `add_mac_crawl`, which misc/db.py does not define. That step is modelled as adding a `MasCrawl` record with that store and outfile. misc/models.py is not part of this model beyond that record and the `(appId, store)` key of the registry.

## Findings

| source | as written | input that shows it | evidently intended | confidence | as-written member | corrected member |
|---|---|---|---|---|---|---|
| misc/CrawlDB.py:84-86 | the mac_crawls schema literal starts with a line break, so `table_sql.lower().startswith("create table")` is false and setup_tables never creates mac_crawls | `MAC_CRAWLS_SCHEMA` itself | leading white space is ignored, so both schemas are created | high, not executed | PgStore.CrawlsSchemaRefused | PgStore.StrippedGuardAcceptsSchemas |
| summarise.py:45 | `item["trackId"]` is unguarded: one entry without a trackId raises KeyError; the crawl is never summarised, so every later pass stops at it and nothing more is ever added | a finished crawl `file:///a` whose artifact `/a` holds one entry without trackId | skip such entries, as crawl.py:76 does | high, not executed | Summarise.StrictPassWedged | Summarise.SkippingMatchesCrawl |
| spider.py:66-74 | `queued_apps_add` queues the extraction result unfiltered, so a non-app link queues None; `",".join(batch)` then raises TypeError on the batch holding it. That batch has already entered the history, so its apps are never looked up | queue holding "7"; the link `https://itunes.apple.com/de/genre/mac/id39` | queue only the ids of app links | high, not executed | Spider.NonAppLinkBreaksLookup | Spider.CheckedAddKeepsLookupWorking |

In `Summarise`, `skipMissing = false` is the reading as written and `true` is the corrected one. Both run through the same loop. In `Spider`, `ParseApplicationNames` is the handler as written and `ParseApplicationNamesChecked` the corrected one.
