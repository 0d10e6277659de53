# Project Sentinel ingestion and correlation core, in Dafny

Project Sentinel collects four kinds of evidence about kinetic events in the
Middle East:
- GDELT event records;
- OpenSky aircraft state vectors;
- RSS and Atom news feeds from sources of three reliability tiers;
- Telegram channel posts.

It loads them into a Neo4j graph and scores every recent event with a
multi-source confidence score. That score maps to a status: Unverified,
Plausible or Confirmed.

This project models the decision logic of that pipeline and proves what it
guarantees:

- **`Correlate`** (`correlate.dfy`) covers the confidence scorer.
  - It holds the score and the status thresholds, and the grid-cell-to-keyword table.
  - It models the flight and narrative corroboration queries against a graph
    held in a `GraphStore` object. That object's scoring properties and
    evidence edges are updated in place.
  - It covers the tier aggregation loop, the per-event score write-back and the main scoring run.
- **`LoadGraph`** (`load_graph.dfy`) covers the graph loader.
  - It covers keyword location extraction, batching, generated event ids, and
    article–location linking.
  - It covers the grid-cell names given to `Location` nodes, and the channel
    and post ids of Telegram posts.
- **`FetchNews`** (`fetch_news.dfy`) covers the news agent: article ids, HTML
  stripping, feed entries to articles, cross-run deduplication, per-source
  counts, and the newest-first merge.
- **`FetchFlights`** (`fetch_flights.dfy`) covers the flight agent: state-vector
  parsing, the "high_altitude_fast" tag, and the processing loop.
- **`FetchTelegram`** (`fetch_telegram.dfy`) covers the Telegram agent: priority
  keywords, message formatting and filtering, and the merged newest-first feed.
- **`IngestGdelt`** (`ingest_gdelt.dfy`) covers the GDELT agent: the CAMEO
  material-conflict filter, the bounding-box filter, and row conversion,
  including `SQLDATE` parsing.
- **`Text`** and **`Sorting`** are shared helpers.
  - `Text` models Python's `str.strip`, ASCII case mapping, substring search,
    `str.replace` and decimal rendering.
  - `Sorting` holds a descending sort by a key order. It stands for Python's
    `sort(key=…, reverse=True)` and Cypher's `ORDER BY … DESC`.

Several things are parameters rather than definitions:
- the wall clock (`now`);
- SHA-256 (`sha256`);
- `html.unescape` (`unescape`);
- Python's `float()` and `int()` on text (`parseFloat`, `parseInt`);
- `repr` of a float (`repr`);
- the great-circle distance test of the flight query (`within`).

Each of these is a function the model receives. The model never defines it.

Some choices follow the code where its comments or docstrings say otherwise:
- `get_status` returns Confirmed for a score of exactly 60 (`correlate.py:394-399`
  tests `score < 60`), although its docstring says "> 60". The model follows the code.
- `TEMPORAL_WINDOW_HOURS` is declared (`correlate.py:73`) but no query uses it,
  so the model has no time window.

## Model

| member | source | states |
|---|---|---|
| Correlate.CalculateScore | backend/analysis/correlate.py:344-381 | the score always lies between 0 and 100 |
| Correlate.ScoreCapNeverBinds | backend/analysis/correlate.py:360-381 | the uncapped sum of the weights is at most 100, so the final `min(score, 100)` never changes a score |
| Correlate.ScoreTier1Flat | backend/analysis/correlate.py:364-365 | any positive number of Tier-1 articles adds exactly 20 points, however many there are |
| Correlate.ScoreTier2Flat | backend/analysis/correlate.py:368-369 | any positive number of Tier-2 articles adds exactly 10 points |
| Correlate.ScoreTier3Capped | backend/analysis/correlate.py:372-374 | Tier-3 evidence adds 5 points per item, at most 30 |
| Correlate.ScoreMilitaryFlat | backend/analysis/correlate.py:377-378 | one or more high-altitude fast aircraft nearby adds exactly 40 points |
| Correlate.ScoreMonotone | backend/analysis/correlate.py:344-381 | more evidence of any kind never lowers the score |
| Correlate.Tier3AloneNeverConfirms | backend/analysis/correlate.py:372-374 | Tier-3 sources alone score at most 30, so they can never make an event Confirmed |
| Correlate.GetStatus | backend/analysis/correlate.py:384-399 | below 30 is Unverified, 30 to 59 is Plausible, 60 and above is Confirmed, each as an if-and-only-if |
| Correlate.StatusMonotone | backend/analysis/correlate.py:384-399 | a higher score never gives a lower status |
| Correlate.GetLocationKeywords | backend/analysis/correlate.py:238-256 | a grid cell in the table gives its keyword list; an absent, empty or unknown cell gives none |
| Correlate.DottedCellHasNoKeywords | backend/analysis/correlate.py:95-113 | a cell name containing a dot never matches a table key, so it gets no keywords |
| Correlate.AggregateTiers | backend/analysis/correlate.py:321-339 | the loop counts the articles of tier 1, of tier 2 and of every other tier, adds the posts to tier 3, and unions the sources; the three counts add up to all articles plus all posts |
| Correlate.CountInPartition | backend/analysis/correlate.py:321-336 | every article row falls into exactly one of the three tier buckets |
| Correlate.ArticlesWithTierCount | backend/analysis/correlate.py:290-300 | grouping by tier counts each distinct article exactly once |
| Correlate.GroupedCountIn | backend/analysis/correlate.py:290-336 | the per-tier rows the query returns give the same bucket counts as counting the distinct (article, tier) pairs directly |
| Correlate.DisplayId | backend/analysis/correlate.py:484 | ids of up to 20 characters are shown whole; longer ones show their first 20 characters and an ellipsis |
| Correlate.NewestFirstIsPreorder | backend/analysis/correlate.py:174-186 | the newest-first event order is a total preorder, so sorting by it is well defined |
| Correlate.ByScoreIsPreorder | backend/analysis/correlate.py:505 | the highest-score-first result order is a total preorder |
| Correlate.StatusCountsSum | backend/analysis/correlate.py:518-520 | the Confirmed, Plausible and Unverified counts add up to the number of results |
| Correlate.GraphStore.constructor | backend/analysis/correlate.py:126-140 | a store starts with the loaded graph and no scores or evidence edges |
| Correlate.GraphStore.FlightEvidence | backend/analysis/correlate.py:189-235 | military flights are among all flights; an event without coordinates, or one that is not in the graph, has no flight evidence |
| Correlate.GraphStore.LinkNearbyFlights | backend/analysis/correlate.py:189-235 | returns the nearby and military flight counts and adds exactly the DETECTED_NEAR edges of this event |
| Correlate.GraphStore.NarrativeEvidence | backend/analysis/correlate.py:259-341 | an event with no id, or not in the graph, has no narrative evidence; a cell without keywords has zero counts |
| Correlate.GraphStore.ArticleTierRows | backend/analysis/correlate.py:287-300 | yields one row per tier present among the matched articles, with that tier's distinct article count and sources |
| Correlate.GraphStore.NarrativeFromRows | backend/analysis/correlate.py:287-339 | the counts and sources aggregated from the per-tier rows equal those of the matched articles themselves |
| Correlate.GraphStore.SourcesInUnion | backend/analysis/correlate.py:321-339 | the aggregated sources are exactly the sources that published a matched article and have a tier |
| Correlate.GraphStore.LinkNarrativeSources | backend/analysis/correlate.py:259-341 | returns the tier counts of the matched articles and posts, and adds exactly their CORROBORATES edges |
| Correlate.GraphStore.UpdateEventScore | backend/analysis/correlate.py:402-424 | writes score, status and time to the event when it exists, and changes nothing otherwise |
| Correlate.GraphStore.RecentRows | backend/analysis/correlate.py:158-186 | every candidate row is of an event in the graph whose timestamp is missing or not before the cutoff |
| Correlate.GraphStore.RecentRowsComplete | backend/analysis/correlate.py:158-186 | every such event, one without a timestamp included, has a row for each place it occurred in, or one row with no location when it has none |
| Correlate.GraphStore.GetRecentEvents | backend/analysis/correlate.py:158-186 | returns exactly the recent events, each once, newest first |
| Correlate.GraphStore.ResultFor | backend/analysis/correlate.py:466-495 | each result carries a score between 0 and 100, the status of that score, and no more military than total flights |
| Correlate.GraphStore.ScoreOne | backend/analysis/correlate.py:466-495 | scoring one event returns its result, writes it back, and adds only that event's evidence edges |
| Correlate.GraphStore.ScoreAll | backend/analysis/correlate.py:466-495 | the loop scores every candidate in order, writes every score back, and adds the evidence edges of all candidates |
| Correlate.GraphStore.ScoredAfterOverrides | backend/analysis/correlate.py:402-424 | writing back scores overrides the earlier properties with what the rows write on their own |
| Correlate.GraphStore.ScoredKeys | backend/analysis/correlate.py:402-424 | a run writes a score to exactly the existing events among its rows, at any time |
| Correlate.GraphStore.RescoreOverwrites | backend/analysis/correlate.py:402-424 | scoring the same rows again overwrites every score the first run wrote and changes nothing when run at the same time; the evidence edges, being MERGEd, gain nothing |
| Correlate.GraphStore.ScoreEvents | backend/analysis/correlate.py:431-530 | a run with no recent events reports nothing; otherwise the results are those of all recent events, sorted by score, with status counts that add up to the number of events |
| LoadGraph.LocationsOfIff | backend/database/load_graph.py:218-238 | a location is found iff some keyword for it occurs in the lower-cased text |
| LoadGraph.LocationsAreCanonical | backend/database/load_graph.py:79-111 | every location found is one of the standardized names of the keyword table |
| LoadGraph.ExtractLocations | backend/database/load_graph.py:218-238 | empty or missing text gives no locations; otherwise the result is exactly the matched locations, without repeats |
| LoadGraph.LocationsIgnoreCase | backend/database/load_graph.py:231 | location extraction does not depend on letter case |
| LoadGraph.RunBatch | backend/database/load_graph.py:154-165 | the batches concatenate to the input, every batch is full except maybe the last, and the count is the input length; a batch size of 0 raises and a negative one sends nothing |
| LoadGraph.WithId | backend/database/load_graph.py:287-289 | an event that has an id keeps it unchanged; one without gets a generated id, and the other fields are untouched |
| LoadGraph.FillEventIds | backend/database/load_graph.py:286-289 | the loop gives every event its own id or the generated one, in place |
| LoadGraph.GeneratedIdInjective | backend/database/load_graph.py:289 | generated ids of different positions never collide, whatever the timestamps |
| LoadGraph.FilledIdsDistinct | backend/database/load_graph.py:287-289 | two events without ids at different positions get different ids |
| LoadGraph.ArticleLinks | backend/database/load_graph.py:350-358 | one article yields exactly one link per location in its title and summary, without repeats |
| LoadGraph.LocationLinks | backend/database/load_graph.py:348-358 | the loop emits the articles' link blocks in article order, and a pair is in the list iff its article is in the input and its location occurs in that article's title and summary |
| LoadGraph.LinksIff | backend/database/load_graph.py:348-358 | a pair is linked iff its article is in the input and its location occurs in that article's text |
| LoadGraph.LinksDistinct | backend/database/load_graph.py:348-358 | when article ids are distinct, no link is emitted twice |
| LoadGraph.RoundHalfUp | backend/database/load_graph.py:279 | rounding to 0 decimals lands within half a unit of the coordinate, and a tie goes away from zero (32.5 to 33, -32.5 to -33) |
| LoadGraph.GridCellNameAsWritten | backend/database/load_graph.py:279 | the cell name as written renders rounded floats, so it always contains a dot |
| LoadGraph.GridNameAsWrittenSameCell | backend/database/load_graph.py:279 | as written, two coordinates get the same name iff they round to the same cell |
| LoadGraph.GridNameAsWrittenNeverMatches | backend/database/load_graph.py:279 | no cell name as written is a key of the grid-to-keyword table |
| LoadGraph.AsWrittenScoresFlightsOnly | backend/database/load_graph.py:279 | with names as written, an event scores either 0 or 40, whatever news and posts say |
| LoadGraph.GridCellName | backend/database/load_graph.py:279 | the corrected name exists iff both coordinates are present |
| LoadGraph.GridNameSameCell | backend/database/load_graph.py:279 | corrected names are equal iff the coordinates round to the same cell |
| LoadGraph.GridNameHitsTable | backend/analysis/correlate.py:95-113 | every point that rounds to a table cell gets that cell's corrected name and so its non-empty keyword list |
| LoadGraph.TelAvivKeywords | backend/analysis/correlate.py:96 | a point at 32.2, 34.8 gets the keywords Israel, Tel Aviv, Jerusalem and West Bank |
| LoadGraph.ChannelNameRoundTrip | backend/database/load_graph.py:402 | removing the "telegram_" prefix recovers the channel name |
| LoadGraph.PostIdInjective | backend/database/load_graph.py:408 | equal post ids mean the same message id and the same channel |
| FetchNews.GenerateArticleId | backend/agents/fetch_news.py:126-142 | an article id is 16 lower-case hex characters and a prefix of the hex digest of the normalized URL |
| FetchNews.NormalizeIdempotent | backend/agents/fetch_news.py:139 | normalizing a URL twice is the same as normalizing it once |
| FetchNews.ArticleIdIgnoresCase | backend/agents/fetch_news.py:139-142 | URLs differing only in letter case get the same id |
| FetchNews.ArticleIdIgnoresPadding | backend/agents/fetch_news.py:139-142 | URLs differing only in surrounding whitespace get the same id |
| FetchNews.RemoveTags | backend/agents/fetch_news.py:163 | tag removal leaves no complete tag, only shrinks the text, keeps a text without '<' unchanged, and keeps characters from the input |
| FetchNews.CollapseSpaces | backend/agents/fetch_news.py:169 | collapsing whitespace leaves single plain spaces and keeps every other character in order |
| FetchNews.StripHtmlTags | backend/agents/fetch_news.py:145-171 | empty in gives empty out; the result has no leading or trailing whitespace and no runs of whitespace |
| FetchNews.StripHtmlTagsKeepsWords | backend/agents/fetch_news.py:145-171 | cleaning keeps every non-space character of the unescaped, tag-free text, in order |
| FetchNews.FeedArticles | backend/agents/fetch_news.py:262-292 | a feed yields at most one article per entry |
| FetchNews.FeedArticlesWellFormed | backend/agents/fetch_news.py:262-292 | every article has a link, the id of that link, a summary of at most 500 characters, and its source's id and tier |
| FetchNews.FeedArticlesLinks | backend/agents/fetch_news.py:262-292 | an entry with a link gives an article with that link, and only such entries do |
| FetchNews.FetchFeedEntries | backend/agents/fetch_news.py:219-307 | the entry loop yields exactly the articles of the feed |
| FetchNews.KeptAreFirstFresh | backend/agents/fetch_news.py:310-335 | deduplication keeps, in input order, exactly the first article of every id not seen before |
| FetchNews.KeptFresh | backend/agents/fetch_news.py:310-335 | kept articles have pairwise distinct ids, none of them seen in an earlier run |
| FetchNews.KeptIds | backend/agents/fetch_news.py:310-335 | the kept ids are exactly the new ids minus the ones seen before |
| FetchNews.SeenIds.constructor | backend/agents/fetch_news.py:418 | the seen-id set starts from the ids it is given |
| FetchNews.LoadExistingArticles | backend/agents/fetch_news.py:338-358 | with no readable cache the run starts from no articles and no ids; otherwise from the cached articles and exactly their ids |
| FetchNews.DeduplicateArticles | backend/agents/fetch_news.py:310-335 | returns the kept articles, kept plus skipped is the input size, and every new id is added to the seen set |
| FetchNews.CountBySource | backend/agents/fetch_news.py:371-374 | one entry per source, in order of first appearance, each with that source's exact article count, and every source present; the counts add up to the total |
| FetchNews.FirstSeen | backend/agents/fetch_news.py:371-374 | the sources of the articles, each exactly once |
| FetchNews.FirstSeenOrder | backend/agents/fetch_news.py:371-374 | a source listed before another occurs in the articles before every occurrence of the other |
| FetchNews.ArticlesMetadata | backend/agents/fetch_news.py:376-381 | the total equals the article count and the sum of the per-source counts; the sources are the configured ids in order; every source's count is its exact number of articles |
| FetchNews.NewerFirstIsPreorder | backend/agents/fetch_news.py:443 | the publication-date order is a total preorder |
| FetchNews.MergeArticles | backend/agents/fetch_news.py:442-443 | the merged list is a permutation of cached plus new articles, newest first |
| FetchNews.Ingest | backend/agents/fetch_news.py:397-443 | the run keeps all cached articles plus the first fresh article of every new id, newest first; new plus skipped adds up; stored ids are the cached ids plus the fetched ids, and stay pairwise distinct when the cache's are; a source is reported failed iff it gave no articles |
| FetchNews.StoredIds | backend/agents/fetch_news.py:435-443 | merging cached articles with deduplicated new ones keeps ids distinct and stores the union of the ids |
| FetchNews.PermutationKeepsIdsDistinct | backend/agents/fetch_news.py:443 | reordering articles keeps their ids pairwise distinct |
| FetchFlights.CallsignOf | backend/agents/fetch_flights.py:226 | a text callsign is its stripped text, a falsy one is empty, and no callsign has surrounding whitespace |
| FetchFlights.TagOf | backend/agents/fetch_flights.py:239-253 | an aircraft is tagged "high_altitude_fast" iff it is above 10000 m and faster than 200 m/s, and only a tagged aircraft has a reason |
| FetchFlights.ParseStateVector | backend/agents/fetch_flights.py:207-259 | a vector is parsed iff it is long enough, has a position, a text or falsy callsign and convertible readings; a short vector or one without a position is skipped; a non-text callsign raises; a parsed aircraft carries every slot of the vector, its callsign and its tag |
| FetchFlights.MissingReadingNeverTagged | backend/agents/fetch_flights.py:239-240 | an aircraft with no altitude or no speed is never tagged |
| FetchFlights.GatherFails | backend/agents/fetch_flights.py:257-259 | processing fails iff some vector raises an error that is not caught |
| FetchFlights.GatherMembers | backend/agents/fetch_flights.py:279-282 | the aircraft list holds exactly the parsed vectors |
| FetchFlights.GatherErrorSticks | backend/agents/fetch_flights.py:279-282 | after an uncaught error, later vectors do not change the outcome |
| FetchFlights.ProcessFlightData | backend/agents/fetch_flights.py:262-294 | missing states give an empty report; the loop reports all parsed aircraft with their count and the tagged count, or the first uncaught error |
| FetchTelegram.AnyKeywordIn | backend/agents/fetch_telegram.py:121-125 | true iff some keyword occurs in the text |
| FetchTelegram.CheckPriority | backend/agents/fetch_telegram.py:111-125 | "high" iff the upper-cased text contains BREAKING, URGENT, CONFIRMED or DEVELOPING; "normal" otherwise |
| FetchTelegram.PriorityIgnoresCase | backend/agents/fetch_telegram.py:111-125 | the priority does not depend on letter case |
| FetchTelegram.FormatMessage | backend/agents/fetch_telegram.py:128-167 | a message is skipped iff it has no text or its stripped text is shorter than 50; a kept one has the stripped text, the channel's source id, its date or now, and its priority |
| FetchTelegram.FormatAllValid | backend/agents/fetch_telegram.py:196-199 | every kept message of a channel has at least 50 characters and that channel's source id |
| FetchTelegram.AllFormattedValid | backend/agents/fetch_telegram.py:271-275 | every message kept from any channel has at least 50 characters and a known channel's source id |
| FetchTelegram.SortedFeed | backend/agents/fetch_telegram.py:284 | the sorted feed is newest first and holds only long enough messages |
| FetchTelegram.CollectFeed | backend/agents/fetch_telegram.py:221-295 | the feed is a permutation of all kept messages, newest first; the counts are the feed length and the high-priority count |
| IngestGdelt.CodesAsText | backend/agents/ingest_gdelt.py:207 | converting the code column to text keeps every row and every other column |
| IngestGdelt.KeepConflictRows | backend/agents/ingest_gdelt.py:210 | the filter never adds rows |
| IngestGdelt.KeepConflictRowsMembers | backend/agents/ingest_gdelt.py:210 | a row is kept iff it is in the input and its code is one of 190 to 195 |
| IngestGdelt.KeepConflictRowsAppend | backend/agents/ingest_gdelt.py:210 | the filter keeps row order |
| IngestGdelt.KeepConflictRowsTwice | backend/agents/ingest_gdelt.py:210 | filtering twice is filtering once |
| IngestGdelt.CodesAsTextOnText | backend/agents/ingest_gdelt.py:207 | converting codes that are already text changes nothing |
| IngestGdelt.CameoFilter | backend/agents/ingest_gdelt.py:181-228 | an empty frame or one without EventCode gives an empty frame; otherwise the columns stay and rows only go |
| IngestGdelt.CameoFilterMembers | backend/agents/ingest_gdelt.py:201-210 | exactly the rows whose code is a material-conflict code survive, and their code is text |
| IngestGdelt.FloatCodeNeverKept | backend/agents/ingest_gdelt.py:207-210 | a code held as a float becomes text like "190.0" and never passes the filter |
| IngestGdelt.CameoFilterIdempotent | backend/agents/ingest_gdelt.py:181-228 | filtering a filtered frame keeps the same rows |
| IngestGdelt.DataFrame.constructor | backend/agents/ingest_gdelt.py:181 | a frame holds its columns and rows |
| IngestGdelt.FilterByCameoCodes | backend/agents/ingest_gdelt.py:181-228 | returns the filtered frame and, in place, turns the caller's code column into text unless the frame is empty or has no code column |
| IngestGdelt.KeepInBox | backend/agents/ingest_gdelt.py:260-271 | a row is kept iff it is in the input and its position lies inside the box |
| IngestGdelt.BoundingBoxFilter | backend/agents/ingest_gdelt.py:231-277 | an empty frame or one without position columns passes unchanged; a text position raises; otherwise the columns stay and a row is kept iff it lies inside the box |
| IngestGdelt.Timestamp | backend/agents/ingest_gdelt.py:310-314 | a date with other than 8 digits gives the current time; an 8-digit one that is not a calendar date raises; a valid one renders as YYYY-MM-DDT00:00:00Z |
| IngestGdelt.TimestampOfDate | backend/agents/ingest_gdelt.py:310-314 | every calendar date of years 1000 to 9999 renders as its year, two-digit month and two-digit day |
| IngestGdelt.ConvertRow | backend/agents/ingest_gdelt.py:306-343 | a row is skipped iff one of its conversions fails; otherwise every field is the converted cell with the source's defaults, and a Goldstein scale or mention count is present iff the row has that column |
| IngestGdelt.PresentMembers | backend/agents/ingest_gdelt.py:338-343 | the events are exactly the rows that converted without error |
| IngestGdelt.CleanAndTransform | backend/agents/ingest_gdelt.py:280-346 | an empty frame gives no events; otherwise the loop returns the converted rows in order, skipping the failures, and never more events than rows |
| Sorting.SortDescSorted | backend/analysis/correlate.py:505 | sorting by a total preorder yields a descending, same-length permutation |
| Text.StripIsTrimmedSlice | backend/agents/fetch_telegram.py:147 | `strip` returns the slice between leading and trailing whitespace |
| Text.StripIdempotent | backend/agents/fetch_telegram.py:147 | stripping twice is stripping once |
| Text.NatToStringRoundTrip | backend/database/load_graph.py:289 | reading back the decimal rendering of a number gives the number |

## Left out

- Network I/O, retries, timeouts, rate-limit delays, JSON files on disk, and console
  output are not modelled. This includes the summary tables, and the display of the
  top 20 results, whose id shortening is kept in `Correlate.DisplayId`. The feeds,
  the API responses and the graph are given as values.
- The Neo4j driver and Cypher are not modelled as such. Each query is a function over
  the graph's nodes and relationships, which the model holds as sets and maps.
  `MERGE` of an existing edge is set union.
- Date and time-zone parsing of feed entries and message dates (`parse_published_date`)
  is not modelled. Dates are text compared as ISO 8601 strings, and the wall clock is
  the `now` parameter.
- `html.unescape`, SHA-256, `float()` and `int()` on text, and `repr` of a float are
  parameters. Only their shapes are assumed: the digest is 64 characters, and
  `int()` of a float truncates toward zero.
- The great-circle distance of the flight query is the `within` predicate parameter.
- Letter case is mapped for ASCII only. Python's full Unicode `lower` and `upper` are
  not modelled.
- Sorting.SortDesc: the order of elements with equal keys is left open. Python's sort
  is stable and keeps their input order; `MergeArticles`, `CollectFeed` and
  `ScoreEvents` inherit this gap.
- FetchNews.FeedArticles: the default title "No Title" of an entry without a title is
  taken as already clean. Cleaning leaves it unchanged.
- FetchNews.FeedArticles: an entry whose link is missing is modelled like an empty
  link. Both are skipped.
- FetchNews.LoadExistingArticles: reading and parsing the cache file is not modelled.
  A missing file, invalid JSON, or an article without an "id" is the `None` cache; a
  readable file is its article list.
- FetchFlights.ParseStateVector: an entry of `states` that is not a list is not
  modelled. Every entry is a sequence of slots.
- FetchFlights.TagOf: the tag reason is kept as the two readings. The source formats
  them as text.
- FetchTelegram.CollectFeed: what each channel delivered is an input. A channel error
  (private, unknown or flood-waited channel, or any other exception) keeps the
  messages formatted before it, so a channel's input is any prefix of its recent
  messages, possibly none.
- Pandas internals are not modelled. A frame is a column list plus a sequence of rows,
  each row a map from column name to cell.
- IngestGdelt.FilterByCameoCodes: the digits of `str()` of a float are not modelled.
  The `FloatText` type only requires that they hold a '.' or an 'e', which is enough
  to exclude every float code (`FloatCodeNeverKept`).
- IngestGdelt.Cell: `Missing` stands for pandas' NaN. A Python `None` in an object
  column, which `str()` renders as "None" and `float()` rejects, is not modelled.
- The GDELT download (`fetch_gdelt_events`) and the Telegram client are not modelled.
  Their outputs are inputs here.
- `correlate.main` handles no errors per event. The model has no failure path for a
  single event either. An unreachable database ends the run before scoring.
- A `SQLDATE` whose year is below 1000 has fewer than 8 digits. The source then
  stamps the current time, and so does `IngestGdelt.Timestamp`.

## Findings

| source | as written | input that shows it | evidently intended | confidence | as-written member | corrected member |
|---|---|---|---|---|---|---|
| backend/database/load_graph.py:279 | the `Location` name is built from `toString(round(lat, 0))`, which renders a float such as `32.0`, giving `Grid_32.0_35.0` | an event at latitude 32.2, longitude 34.8 gets `Grid_32.0_35.0`, which is not a key of `GRID_TO_LOCATION` (`correlate.py:95-113`, keys like `Grid_32_35`), so no news or post ever corroborates an event and scores are 0 or 40 | integer cell names such as `Grid_32_35`, matching the keyword table | high (not executed) | LoadGraph.GridNameAsWrittenNeverMatches | LoadGraph.GridNameHitsTable, LoadGraph.TelAvivKeywords |
