# PDC Monitor lead pipeline, modelled in Dafny

This project models the lead-aggregation core of `pdc_scraper.py`, a script that runs on a schedule.
Three feed readers append records to one module-level list:
- HoopDirt coaching news: the first 10 entries, recent ones only.
- Four fixed Google News queries: at most 4 entries each, tagged by the query.
- NCAA Market job postings: filtered on title keywords.

The alert step then:
- deduplicates the list by URL with Python dict semantics;
- stable-sorts it so wealth and pain leads come first;
- builds the Slack payload, a heartbeat when nothing was found, otherwise a header with the unique count, a divider and at most 15 section lines.

Modules, one per component of the script:
- `PdcTypes` (types.dfy): entries, records (`Opp`), the closed set of record types, `Option`, the slice `Take`.
- `Text` (text.dfy): ASCII lower-casing, Python's substring `in`, `any(...)` over keywords, decimal rendering of the count.
- `Recency` (recency.dfy): `is_recent`. The parsed date is an `Option<int>` of seconds and `now` is a parameter.
- `Sources` (sources.dfy): the three readers. `Collector` is a class whose field `found` stands for the global `found_opps`. Each reader is a method with a loop that appends to it. Each method is proved equal to a specification function of its input entries, and the lemmas about those functions state the per-source properties.
- `Deduplication` (dedup.dfy): the dict comprehension, as a fold of dict assignment (`Upsert`) over an insertion-ordered sequence.
- `Ranking` (ranking.dfy): `sorted(..., key=...)` as a stable insertion sort on the two-valued key.
- `Alert` (alert.dfy): the payload blocks. `SendSlackAlert` is a method whose loop appends the section blocks.
- `Monitor` (monitor.dfy): the script's entry point. It runs the three readers on a fresh list, then the alert.

Two behaviours of the code worth stating plainly:
- A record's type comes from its source or its Google query; no keyword matching decides it. `COACHING_KEYWORDS` and `CLIENT_KEYWORDS` are never read.
- Deduplication keeps the last record appended with a URL, at the position where that URL first appeared. That is what `{opp['url']: opp for opp in found_opps}` does.

## Model

| member | source | states |
|---|---|---|
| `Recency.IsRecent` | pdc_scraper.py:31-41 | an unparsable date is always recent; a parsed date is recent exactly when it is no more than 48 hours before `now` |
| `Recency.RecencyBoundary` | pdc_scraper.py:36-41 | an entry exactly 48 h old is kept, one second older is rejected, a future date is kept, no date is kept whatever the clock |
| `PdcTypes.Take` | pdc_scraper.py:48 | the slice `s[:n]` has min(len, n) elements and is a prefix |
| `Text.Lower` | pdc_scraper.py:106 | lower-casing keeps the length and maps each ASCII capital to its small letter |
| `Text.LowerIdempotent` | pdc_scraper.py:106 | lower-casing a lower-cased title changes nothing |
| `Text.Contains` | pdc_scraper.py:107 | `sub in s` holds exactly when `sub` occurs in `s` at some index |
| `Text.ContainsAny` | pdc_scraper.py:108 | `any(x in title for x in keys)` holds exactly when some keyword occurs in the title |
| `Text.NatToString` | pdc_scraper.py:138 | the count renders as non-empty decimal digits with no leading zero |
| `Text.NatToStringRoundTrip` | pdc_scraper.py:138 | reading the rendered digits back gives the count |
| `Sources.HoopDirtRecord` | pdc_scraper.py:50-56 | the HoopDirt record built from an entry; no ensures, described by `Sources.HoopDirtOppsBound` |
| `Sources.GoogleRecord` | pdc_scraper.py:89-95 | the Google record built from a query and an entry; no ensures, described by `Sources.QueryOpps` and `Sources.QueryOppsBound` |
| `Sources.NcaaRecord` | pdc_scraper.py:109-115 | the NCAA record built from an entry; no ensures, described by `Sources.NcaaOppsMembers` |
| `Sources.NcaaAccepts` | pdc_scraper.py:106-108 | the NCAA title filter; no ensures, its meaning comes from the contracts of `Text.Lower`, `Text.Contains` and `Text.ContainsAny`, and `Sources.NcaaCaseInsensitive` |
| `Sources.KeepRecent` | pdc_scraper.py:49-56 | the records the HoopDirt loop appends for the entries it visits; no ensures, described by `Sources.KeepRecentMembers` and `Sources.KeepRecentConcat` |
| `Sources.HoopDirtOpps` | pdc_scraper.py:48-56 | everything `get_hoopdirt` appends; no ensures, described by `Sources.HoopDirtOppsBound` and `Sources.Collector.AddHoopDirt` |
| `Sources.GoogleOppsUpTo` | pdc_scraper.py:82-95 | what the first n queries append; no ensures, described by `Sources.GoogleOppsUpToBound` |
| `Sources.GoogleOpps` | pdc_scraper.py:82-95 | everything `get_google_smart_search` appends; no ensures, described by `Sources.GoogleOppsBound` and `Sources.Collector.AddGoogleSmartSearch` |
| `Sources.NcaaOpps` | pdc_scraper.py:105-115 | everything `get_ncaa_market` appends; no ensures, described by `Sources.NcaaOppsMembers` and `Sources.NcaaOppsConcat` |
| `Sources.KeepRecentMembers` | pdc_scraper.py:48-56 | a HoopDirt record is appended exactly for each visited entry that is recent, one record at most per entry |
| `Sources.KeepRecentConcat` | pdc_scraper.py:48-56 | entries are processed in feed order: two stretches append their records one after the other |
| `Sources.HoopDirtOppsBound` | pdc_scraper.py:48-56 | HoopDirt appends at most 10 records, one per recent entry among the first 10, all of type industry |
| `Sources.QueryOpps` | pdc_scraper.py:88-95 | a query appends one record per visited entry, in order, record i built from entry i |
| `Sources.QueryOppsBound` | pdc_scraper.py:82-95 | each query appends min(len, 4) records carrying that query's label and type, whatever the entries' dates |
| `Sources.GoogleOppsUpToBound` | pdc_scraper.py:82-95 | the first n queries append at most 4n records, each tagged like one of those queries |
| `Sources.GoogleOppsBound` | pdc_scraper.py:67-95 | the whole Google search appends at most 16 records, each with the label and type of one of the four queries |
| `Sources.NcaaOppsMembers` | pdc_scraper.py:102-115 | an NCAA record is appended exactly for each entry whose lower-cased title has "basketball" or "player development" and none of the ignore words; it is of type industry and keeps the title as written |
| `Sources.NcaaCaseInsensitive` | pdc_scraper.py:106-108 | the NCAA title filter gives the same answer for a title and its lower-cased form |
| `Sources.NcaaOppsConcat` | pdc_scraper.py:105-115 | NCAA entries are processed in feed order |
| `Sources.Collector.constructor` | pdc_scraper.py:27 | the accumulated list starts empty |
| `Sources.Collector.AddHoopDirt` | pdc_scraper.py:43-58 | the list afterwards is the old list, unchanged, followed by the HoopDirt records of the given entries |
| `Sources.Collector.AddGoogleSmartSearch` | pdc_scraper.py:60-97 | the list afterwards is the old list followed by the four queries' records, query by query |
| `Sources.Collector.AppendQueryResults` | pdc_scraper.py:88-95 | one query's turn appends, after the old list, one record per entry among the first 4 of its feed, tagged with the query's label and type |
| `Sources.Collector.AddNcaaMarket` | pdc_scraper.py:99-117 | the list afterwards is the old list followed by the NCAA records of the given entries |
| `Deduplication.IndexOfUrl` | pdc_scraper.py:121 | the first position holding a URL, or -1 when none does |
| `Deduplication.LastIndexOfUrl` | pdc_scraper.py:121 | the last position holding a URL, or -1 when none does |
| `Deduplication.Upsert` | pdc_scraper.py:121 | one dict assignment `d[url] = opp`; no ensures, described by `Deduplication.UpsertEffect` |
| `Deduplication.Dedup` | pdc_scraper.py:121 | the dict comprehension's values; no ensures, described by `Deduplication.DedupUrls`, `Deduplication.DedupKeepsLast` and `Deduplication.DedupFirstSeenOrder` |
| `Deduplication.UpsertEffect` | pdc_scraper.py:121 | dict assignment replaces the record of a present URL in place and appends a new URL, keeping URLs distinct |
| `Deduplication.DedupUrls` | pdc_scraper.py:121 | the unique records have pairwise distinct URLs, exactly the URLs that were found, and are no more than were found |
| `Deduplication.DedupKeepsLast` | pdc_scraper.py:121 | the record kept for each URL is the last one appended with that URL |
| `Deduplication.IndexOfUrlSnoc` | pdc_scraper.py:121 | appending a record does not move the first occurrence of a URL already present |
| `Deduplication.DedupFirstSeenOrder` | pdc_scraper.py:121 | unique records are ordered by the first occurrence of their URLs |
| `Deduplication.PermutationKeepsUrls` | pdc_scraper.py:144 | reordering keeps the URL set and URL distinctness |
| `Ranking.Rank` | pdc_scraper.py:144 | the sort key: 0 for wealth and pain, 1 for every other type; no ensures, used by `Ranking.SortByRankSpec`, `Ranking.SortByRankIsTwoTiers` and `Ranking.PriorityFirst` |
| `Ranking.Insert` | pdc_scraper.py:144 | inserting adds exactly one element |
| `Ranking.SortByRank` | pdc_scraper.py:144 | sorting keeps the number of records |
| `Ranking.InsertPermutes` | pdc_scraper.py:144 | inserting adds exactly the new record to the multiset |
| `Ranking.InsertSorted` | pdc_scraper.py:144 | inserting into a key-sorted list keeps it key-sorted |
| `Ranking.InsertTier` | pdc_scraper.py:144 | the inserted record goes last among records with its key |
| `Ranking.SortByRankSpec` | pdc_scraper.py:144 | the ranked list is sorted by key, is a permutation of the unique records, and keeps each tier in discovery order |
| `Ranking.SortByRankIsTwoTiers` | pdc_scraper.py:144 | the ranked list is the wealth and pain records in discovery order, then all others in discovery order |
| `Ranking.PriorityFirst` | pdc_scraper.py:143-144 | every wealth or pain record comes before every other record, partner included |
| `Alert.Emoji` | pdc_scraper.py:147-150 | 💰 for wealth, ❤️ for pain, 🤝 for partner, 🏀 for industry; no ensures, the value `Alert.SendSlackAlert` is proved to use |
| `Alert.SectionLine` | pdc_scraper.py:156 | the emoji, the summary in bold, then the url and title inside angle brackets, separated by a vertical bar; no ensures, the value `Alert.SendSlackAlert` is proved to produce |
| `Alert.HeaderText` | pdc_scraper.py:138 | the text `🚀 PDC Monitor: {count} Leads`; no ensures, its count rendering is described by `Text.NatToString` and `Text.NatToStringRoundTrip` |
| `Alert.IsAlertPayload` | pdc_scraper.py:126-160 | the payload shape: heartbeat when there are no unique records, otherwise header, divider and min(count, 15) ranked sections; no ensures, established by `Alert.SendSlackAlert` and used by `Alert.HeartbeatIffNothingFound` |
| `Alert.SendSlackAlert` | pdc_scraper.py:119-160 | no unique records: exactly the heartbeat block; otherwise a header with the full unique count, a divider, then min(count, 15) section lines for the front of the ranked order, with the emoji for each type |
| `Alert.HeartbeatIffNothingFound` | pdc_scraper.py:121-141 | the heartbeat is sent exactly when nothing was found; otherwise 3 to 17 blocks, opening with the count header |
| `Alert.RankedRecords` | pdc_scraper.py:121-146 | the records the sections are drawn from name each found URL once, each with the last record found for it |
| `Alert.DuplicateThenLead` | pdc_scraper.py:121-160 | for a record, a later record with the same URL, then a wealth or pain lead: the header reads "2 Leads", the lead comes first, then the later duplicate in the earlier one's place |
| `Monitor.RunMonitor` | pdc_scraper.py:168-172 | a run's payload is the alert for HoopDirt's, then Google's, then NCAA's records |

## Left out

- Fetching feeds (`feedparser.parse`) and building the Google News RSS URL with `urllib.parse.quote` are network and library calls. Each reader takes the entries its feed returned. A query's text is kept as data but not used.
- The webhook POST, the printed fallback and `json.dumps` are I/O. The model stops at the payload blocks.
- Date parsing with `strptime` and the clock `datetime.now` are library and clock calls. An entry carries its date already parsed to whole seconds, or None when parsing fails, and `now` is a parameter. Sub-second precision and time zones are not modelled.
- `str.lower` is modelled for ASCII letters only. Unicode case mapping is not modelled.
- Reading `SLACK_WEBHOOK_URL` from the environment is configuration I/O.
- `COACHING_KEYWORDS` and `CLIENT_KEYWORDS` are never read by the code, so they are not modelled.
- Exceptions are not modelled. In `get_hoopdirt` and `get_ncaa_market` the `try` wraps the whole entry loop, so an exception keeps what was appended before it and drops the rest of that feed. In `get_google_smart_search` the `try` sits inside the query loop, so an exception drops only the rest of that query's feed and the later queries still run; the model gives each query its own feed, which matches this. The model takes a failure as the reader, or the query, receiving only the entries before it.
- An exception can come from a failed fetch or from reading a missing attribute, and only where that attribute is read. HoopDirt reads `published` for every visited entry, but `title` and `link` only for recent ones. NCAA reads `title` for every entry, but `link` only for titles that pass the filter. Google reads `title` and `link` for each of its first 4 entries. The model's entries always carry these fields, so the caller truncates the input at the first entry whose read would fail.
- Progress and error messages printed to the console are not modelled.
- `Ranking.SortByRank`: Python's `sorted` is modelled by a stable insertion sort, not by the library's algorithm. Any stable sort on this key returns the same list, and `Ranking.SortByRankIsTwoTiers` states which list that is.
