# grainyhead in Dafny

grainyhead is a command-line helper for GitHub repositories. It lists and
closes stale issues, manages labels and computes contribution metrics:
who opened, closed, merged, commented and committed, and whether they are
members of a team. All of it rests on a stack of repository providers:

- an online provider pages through the GitHub API;
- a file provider caches each item type in a JSON file and refreshes it under a cache policy;
- a memory provider keeps what it fetched and sets each record's wrapper class;
- a `Repository` object offers views of the data (open issues, pull requests, labels, teams, contributors) and a few write calls.

The repository holds three generations of the tool:

- `fbcam/` is the oldest, with `get_metrics`;
- `incenp/` is the middle one, with the first file cache, the filter classes and the `MetricsReporter`;
- `src/incenp/` is the newest, with cache policies, duplicate purging and committers and commenters.

This project models each generation where its behaviour differs, and models shared code once.

The model is organised as follows:

- Times are integer seconds since the Unix epoch, and a day is 86400 seconds.
- A record is a datatype that keeps only the fields the core reads (`Items.Record`).
- Every Python exception the core can raise becomes an `Err` of a `Result`. The exceptions covered are IndexError, KeyError, AttributeError, OverflowError, TypeError, OSError, HTTP errors and click's `fail`.
- A backend (the provider a cache sits in front of) is a function from item type and `since` to a `Result`.
- The GitHub API is a function from an operation and `since` to a first answer and numbered pages.
- The clock is a parameter.
- Objects whose fields the source updates are classes, and their methods are proved against specification functions:
  - the memory provider;
  - the two file providers;
  - the cache-policy registry;
  - `Repository`, with its lazily computed labels, teams, committers and commenters.
- Loops are `while` loops with invariants: pagination, the retag loop, the team map, the per-period report loop and the per-contributor loop of `get_metrics`.

Modules:

| module | file | models |
|---|---|---|
| Common | common.dfy | Option/Result, strings, sequences (helpers) |
| Dates | dates.dfy | the proleptic Gregorian calendar of `datetime` |
| Items | items.dfy | item types, records, the wrappers' accessors, the provider views |
| Online | online.dfy | `OnlineRepositoryProvider` (middle and newest) |
| Memory | memory.dfy | `MemoryRepositoryProvider` (middle and newest) |
| Purging | purge.dfy | `_purge_duplicates` and `_get_last_item_date` (newest) |
| Caching | policy.dfy | `CachePolicy` (newest) |
| FileCache | file_cache.dfy | `FileRepositoryProvider` (newest) |
| LegacyCache | legacy_cache.dfy | `FileRepositoryProvider` (middle) |
| Filtering | filtering.dfy | the filter classes of `filtering.py` (middle) |
| Metrics | metrics.dfy | `MetricsReporter` and its filters (middle) |
| Conversions | conversions.dfy | `DateParamType`, `TimeIntervalParamType`, `parse_duration` (all generations) |
| Repositories | repository.dfy | `Repository` (newest; its shared part also stands for the middle and oldest) |
| OriginalRepositories | original_repository.dfy | `Repository.get_metrics` (oldest) |

The `Repository` classes of the three generations share:

- the views, `labels`, `get_team`, `create_label` and `close_issue`, which are the same code in all three;
- `contributors` in the middle generation, which is the newest generation's `collaborators`.

`Repositories.Repository` models them once, and the rows below cite the newest generation's lines. The same code stands at:

- `incenp/grainyhead/repository.py`: the views at 28-58, `labels` at 60-64, `contributors` at 66-68, `get_team` at 70-75, `create_label` at 77-80, `close_issue` at 82-87;
- `fbcam/grainyhead/repository.py`: the views at 30-60, `labels` at 62-66, `get_team` at 68-73, `create_label` at 75-78, `close_issue` at 80-85.

Likewise, the date and interval converters of the older generations behave as the newest ones, which `Conversions` models:

- `incenp/grainyhead/util.py`: `DateParamType.convert` at 50-72, `TimeIntervalParamType.convert` at 91-111;
- `fbcam/grainyhead/util.py`: `DateParamType.convert` at 48-70.

Two details of the code that a reader might not expect are modelled as written. First, the `period` dictionary of `get_metrics` files the start under `to` and the end under `from` (`fbcam/grainyhead/repository.py:92-94`). Second, `_fetch_teams` puts a `__collaborators` team first in the team list (`src/incenp/grainyhead/providers.py:311`).

## Model

| member | source | states |
|---|---|---|
| Items.FilterTimeExact | src/incenp/grainyhead/providers.py:66-72 | `created`/`_filter_time` is strict at both ends; an absent bound does not constrain |
| Items.ClosedNeedsCloseTime | src/incenp/grainyhead/providers.py:102-112 | an issue without `closed_at` is never closed in any window; otherwise closed iff `closed_at` is in the window |
| Items.UserNameFallbacks | src/incenp/grainyhead/providers.py:59-160 | per wrapper: `user_name` is the event actor, the commit author or else the git author name, the release author, otherwise `user.login`; `label_strings` comes from the issue or the event's issue, else is empty; `creation_time` is the commit date for commits |
| Items.IssuesAndPullRequestsPartition | src/incenp/grainyhead/providers.py:177-190 | every ISSUES record is in exactly one of `issues`/`pull_requests`, and both views keep order |
| Items.IssueViewsKeepOrder | src/incenp/grainyhead/providers.py:177-190 | both views commute with concatenation |
| Items.OpenOnlyExact | src/incenp/grainyhead/repository.py:30-40 | an item is kept iff it is in the list and has no `closed_at`; commutes with concatenation |
| Items.TeamStub | src/incenp/grainyhead/providers.py:310-315 | the `__collaborators` stub has the slug and no members |
| Memory.Tagged | src/incenp/grainyhead/providers.py:463-466 | same length; each record keeps its fields with the new wrapper |
| Memory.WrappedKeepsFields | src/incenp/grainyhead/providers.py:442-448 | retagging changes only the wrapper; types without a wrapper are stored as fetched |
| Memory.Retag | src/incenp/grainyhead/providers.py:464-466 | the retag loop sets every record's wrapper |
| Memory.MemoryProvider.constructor | src/incenp/grainyhead/providers.py:450-458 | empty store over the given backend |
| Memory.MemoryProvider.GetData | src/incenp/grainyhead/providers.py:460-468 | a stored list is returned whatever `since`, without asking the backend; otherwise the backend is asked once, its list is retagged, stored and returned, and an exception stores nothing |
| Memory.TwoCalls | incenp/grainyhead/providers.py:357-365 | two calls for one type reach the backend at most once and return the same list |
| Online.OnlineProvider.constructor | src/incenp/grainyhead/providers.py:224-241 | a provider over the given API |
| Online.Paginate | src/incenp/grainyhead/providers.py:270-289 | the page loop returns the first answer then pages 1..last_page, or the first exception |
| Online.OnlineProvider.GetData | src/incenp/grainyhead/providers.py:243-255 | teams, committers and the other types are routed to their fetches |
| Online.OnlineProvider.FetchCommitters | src/incenp/grainyhead/providers.py:257-268 | all pages of the contributor listing, `since` ignored |
| Online.OnlineProvider.Fetch | src/incenp/grainyhead/providers.py:270-289 | `since` is passed on, or for events and releases filtered after paging |
| Online.OnlineProvider.FetchSince | src/incenp/grainyhead/providers.py:291-308 | pages until the last record is not after `since`, then keeps records created at or after it |
| Online.OnlineProvider.FetchTeams | src/incenp/grainyhead/providers.py:310-322 | `__collaborators` then each listed team, each with its member logins |
| Online.OnlineProvider.FetchTeamMembers | src/incenp/grainyhead/providers.py:324-339 | member logins of a team or of the collaborators; a 4xx gives none |
| Online.Members | src/incenp/grainyhead/providers.py:324-339 | a member fetch never raises a client error |
| Online.SinceAsked | src/incenp/grainyhead/providers.py:296-305 | the `_fetch_since` loop asks for no more pages than exist |
| Online.TeamsAndCommittersIgnoreSince | src/incenp/grainyhead/providers.py:243-255 | teams and committers do not depend on `since` |
| Online.SinceRouting | src/incenp/grainyhead/providers.py:270-280 | events and releases are paged without `since` and filtered; other calls pass it on |
| Online.FetchedAsWrittenBeforeLeak | src/incenp/grainyhead/providers.py:270-288 | while the shared default `apiargs` holds no `since`, `_fetch` as written fetches what `since` asks for; only a call that passes `since` to a listing that accepts it writes one |
| Online.SinceLeaksIntoLaterFetches | src/incenp/grainyhead/providers.py:270-288 | after `get_data(COMMENTS, since=x)`, a later full listing of commits, teams or collaborators asks for `since=x`, and the entry is never removed |
| Online.FetchRepeatsFirstPage | src/incenp/grainyhead/providers.py:277-287 | page 1 is requested twice: once as the first answer and once by the loop, which starts at page 1; a multi-page listing therefore holds its first page twice, and only `_purge_duplicates` in the file provider removes the repeat |
| Online.SinceGatherKeepsPrefix | src/incenp/grainyhead/providers.py:296-305 | the gather loop keeps the first answer and the pages asked, stops at the first page reaching back to `since` |
| Online.FetchSinceStops | src/incenp/grainyhead/providers.py:291-308 | `_fetch_since` returns the records at or after `since` among those it saw, and stops exactly there |
| Online.NotBeforeExact | src/incenp/grainyhead/providers.py:306-307 | the final filter keeps exactly the records created at or after `since`, in order |
| Online.FetchSinceFirstPageSuffices | src/incenp/grainyhead/providers.py:294-297 | no numbered page is asked when the first answer reaches back to `since` |
| Online.SetMembersShape | src/incenp/grainyhead/providers.py:316-321 | the team loop keeps order and fills each team's members |
| Online.TeamListShape | src/incenp/grainyhead/providers.py:310-322 | `__collaborators` first; a 4xx on the listing leaves it alone; other errors propagate |
| Online.MembersClientErrorIsEmpty | src/incenp/grainyhead/providers.py:324-339 | a refused member listing reads as an empty team |
| Purging.UpsertShape | src/incenp/grainyhead/providers.py:424-429 | `d[key] = x` keeps keys distinct, holds x, adds its key |
| Purging.DedupDistinctKeepsLast | src/incenp/grainyhead/providers.py:424-429 | the dictionary pass keeps one record per key, the last one with that key |
| Purging.DedupKeepsFirstPositions | src/incenp/grainyhead/providers.py:424-429 | keys come out in order of first appearance |
| Purging.DedupOfDistinct | src/incenp/grainyhead/providers.py:424-429 | a list with distinct keys is unchanged |
| Purging.SortDesc | src/incenp/grainyhead/providers.py:431-436 | the sort is a permutation |
| Purging.SortDescShape | src/incenp/grainyhead/providers.py:431-436 | the sort orders newest first and keeps keys distinct |
| Purging.SortDescOfSorted | src/incenp/grainyhead/providers.py:431-436 | sorting a sorted list changes nothing |
| Purging.LastItemDate | src/incenp/grainyhead/providers.py:386-403 | IndexError exactly when a resuming type's list is empty |
| Purging.LastItemDateCases | src/incenp/grainyhead/providers.py:386-403 | which field the resume date is read from, per type |
| Purging.PurgeSpec | src/incenp/grainyhead/providers.py:405-436 | one record per key of the input, the last with that key; dated types newest first, others in first-appearance order |
| Purging.PurgeIdempotent | src/incenp/grainyhead/providers.py:405-436 | purging twice equals purging once |
| Purging.MergeKeepsCachedCopy | src/incenp/grainyhead/providers.py:371-374 | merging fetched + cached keeps every key of both, and the cached copy of a shared key |
| Purging.LastItemDateIsOldest | src/incenp/grainyhead/providers.py:386-403 | on a purged list `data[-1]` is the oldest record, so refresh resumes from the minimum date |
| Caching.CachePolicy.constructor | src/incenp/grainyhead/caching.py:45-68 | a policy of the given maximum age at the given time |
| Caching.CachePolicy.RefreshFile | src/incenp/grainyhead/caching.py:81-91 | refresh of an existing file's mtime; OSError for a missing one |
| Caching.Policies.constructor | src/incenp/grainyhead/caching.py:167-201 | no special policy created yet |
| Caching.Policies.Refresh | src/incenp/grainyhead/caching.py:169-174 | one REFRESH singleton of age 0, created on first use |
| Caching.Policies.NoRefresh | src/incenp/grainyhead/caching.py:178-183 | one NO_REFRESH singleton of maximal age |
| Caching.Policies.Reset | src/incenp/grainyhead/caching.py:187-192 | one RESET singleton of age -1 |
| Caching.Policies.Disabled | src/incenp/grainyhead/caching.py:196-201 | one DISABLED singleton of age -2 |
| Caching.Policies.FromString | src/incenp/grainyhead/caching.py:121-165 | keyword → its singleton, duration → new policy, otherwise None; OverflowError past the `timedelta` range |
| Caching.UnitDays | src/incenp/grainyhead/caching.py:22 | every unit is at least one day |
| Caching.DigitIsNoKeyword | src/incenp/grainyhead/caching.py:133-150 | no keyword starts with a digit |
| Caching.RefreshAntitone | src/incenp/grainyhead/caching.py:70-79 | a larger maximum age refreshes less |
| Caching.SpecialPoliciesRefresh | src/incenp/grainyhead/caching.py:70-79 | what REFRESH, RESET, DISABLED and NO_REFRESH refresh |
| Caching.RefreshFileAlwaysRaises | src/incenp/grainyhead/caching.py:91 | `refresh_file` as written always raises TypeError |
| Caching.RefreshFileFollowsRefresh | src/incenp/grainyhead/caching.py:81-91 | the corrected `refresh_file` is `refresh` of the mtime and inherits its ordering |
| Caching.KindsAreExclusive | src/incenp/grainyhead/caching.py:93-112 | the four special kinds are pairwise exclusive |
| Caching.ParsePolicyIgnoresCase | src/incenp/grainyhead/caching.py:131 | `from_string` lower-cases first |
| Caching.ParsePolicyKeywords | src/incenp/grainyhead/caching.py:133-150 | each keyword pair selects its policy; a non-digit start is a keyword or nothing |
| Caching.ParsePolicyNumeric | src/incenp/grainyhead/caching.py:151-163 | number + unit gives seconds or days×unit seconds, whatever follows |
| Caching.ParseDurationNumeric | src/incenp/grainyhead/caching.py:151-163 | the duration match on digits then a unit |
| Caching.ParsePolicyBareNumber | src/incenp/grainyhead/caching.py:151-163 | a bare number counts days |
| Caching.SecondsRoundTrip | src/incenp/grainyhead/caching.py:151-163 | writing n seconds as `<n>s` reads back as age n |
| Caching.ParsedAgesAreOrdinary | src/incenp/grainyhead/caching.py:151-163 | a parsed age is never negative, so never RESET or DISABLED; it equals the never-refresh age only when written in seconds |
| Caching.LowerDigitsThenUnit | src/incenp/grainyhead/caching.py:131 | lower-casing leaves digits and a lower-case unit alone |
| FileCache.PathJoin | src/incenp/grainyhead/providers.py:382-384 | the joined path ends with the name |
| FileCache.DataFile | src/incenp/grainyhead/providers.py:382-384 | the data file name ends in `.json` |
| FileCache.PathJoinInjective | src/incenp/grainyhead/providers.py:382-384 | distinct names give distinct paths |
| FileCache.DataFilesDistinct | src/incenp/grainyhead/providers.py:382-384 | each item type has its own file |
| FileCache.Decide | src/incenp/grainyhead/providers.py:350-380 | the corrected decision never crashes; a resume keeps the cached list |
| FileCache.DecideCases | src/incenp/grainyhead/providers.py:350-380 | delegate when DISABLED; full fetch on RESET, missing or empty file; serve a fresh file; resume a stale one |
| FileCache.DecideIgnoresCallerSince | src/incenp/grainyhead/providers.py:358-368 | the caller's `since` only matters when the cache is disabled |
| FileCache.ResumeFromOldest | src/incenp/grainyhead/providers.py:362-372 | refreshing a file the provider wrote resumes from its oldest record |
| FileCache.DecideAsWrittenCrashes | src/incenp/grainyhead/providers.py:362-368 | as written, a stale empty file of a resuming type raises IndexError, and nothing else crashes |
| FileCache.EmptyStaleReleasesCrash | src/incenp/grainyhead/providers.py:362-368 | a stale empty `releases.json` raises as written and is refetched when corrected |
| FileCache.DecideAgreesUnlessCrash | src/incenp/grainyhead/providers.py:350-380 | the correction changes only the crashing case |
| FileCache.PurgeIsPurged | src/incenp/grainyhead/providers.py:374 | what is written back is purged |
| FileCache.RefreshMerges | src/incenp/grainyhead/providers.py:370-374 | a refresh keeps every cached and fetched key, and the cached copy of a shared key |
| FileCache.FileProvider.constructor | src/incenp/grainyhead/providers.py:345-348 | a provider over directory, backend and policy |
| FileCache.FileProvider.GetData | src/incenp/grainyhead/providers.py:350-380 | follows `Decide`: serve, delegate, or fetch, merge, purge and write back; backend errors pass through |
| FileCache.FileProvider.ReadThrough | src/incenp/grainyhead/providers.py:357-380 | the part past the DISABLED test |
| LegacyCache.LastItemDate | incenp/grainyhead/caching.py:67-81 | corrected: IndexError iff a resuming type's list is empty |
| LegacyCache.StaleCommittersRaise | incenp/grainyhead/caching.py:67-81 | a stale COMMITTERS refresh raises as written, and not when corrected |
| LegacyCache.Decide | incenp/grainyhead/caching.py:37-61 | corrected decision never crashes; a refetch keeps the cached list as prefix |
| LegacyCache.DecideCases | incenp/grainyhead/caching.py:37-61 | full fetch on missing or empty file, serve when fresh, extend when stale; `since` is ignored |
| LegacyCache.DecideAsWrittenCrashes | incenp/grainyhead/caching.py:44-53 | as written: IndexError on a stale empty file, AttributeError on a stale COMMITTERS file |
| LegacyCache.DecideAgreesUnlessCrash | incenp/grainyhead/caching.py:37-61 | the correction changes only the crashing cases |
| LegacyCache.FullRefreshDuplicates | incenp/grainyhead/caching.py:55-56 | a stale full refresh appends, so shared records appear twice |
| LegacyCache.LegacyFileProvider.constructor | incenp/grainyhead/caching.py:32-35 | a provider over directory and backend |
| LegacyCache.LegacyFileProvider.GetData | incenp/grainyhead/caching.py:37-61 | follows `Decide`: serve, or fetch, append and write back |
| Filtering.CountTrue | incenp/grainyhead/filtering.py:217-220 | counts the true verdicts; zero iff none is true |
| Filtering.LeafFilters | incenp/grainyhead/filtering.py:27-133 | what null, base, date-range, team, user and label filters accept |
| Filtering.ComplementNegates | incenp/grainyhead/filtering.py:154-155 | a complement negates, twice is identity |
| Filtering.IntersectionAndUnion | incenp/grainyhead/filtering.py:189-204 | intersection = all accept, union = some accepts |
| Filtering.DifferenceExactlyOne | incenp/grainyhead/filtering.py:217-220 | difference accepts when exactly one member does |
| Filtering.ComplementOfIntersection | incenp/grainyhead/filtering.py:154-204 | De Morgan over the filter classes |
| Filtering.JoinShown | incenp/grainyhead/filtering.py:171-176 | a join is readable iff every part is |
| Filtering.ShownJoins | incenp/grainyhead/filtering.py:171-176 | combinations show members joined by their operator; an intersection as written does not |
| Filtering.DisplayNames | incenp/grainyhead/filtering.py:91-152 | the `name` and `str` of each leaf and of a complement |
| Filtering.ShownReadable | incenp/grainyhead/filtering.py:171-190 | corrected: every filter without a bare base has readable text; as written, any intersection spoils it |
| Filtering.ShownReadableAll | incenp/grainyhead/filtering.py:171-190 | the same for a list of filters |
| Filtering.IntersectionNameLost | incenp/grainyhead/filtering.py:179-190 | an intersection's name and text are the default object text as written |
| Filtering.JoinTwo | incenp/grainyhead/filtering.py:172 | joining two texts |
| Metrics.PassesAllExact | incenp/grainyhead/metrics.py:546-559 | a combined filter runs every test in order; the first exception escapes |
| Metrics.ChannelQuirks | incenp/grainyhead/metrics.py:456-506 | per-channel behaviour of team, user and label filters |
| Metrics.UndatedTexts | incenp/grainyhead/metrics.py:538-540 | the text of a combination leaves out `date:` parts |
| Metrics.SelectorForms | incenp/grainyhead/metrics.py:126-156 | `user:`, `label:`, `team:` and `all` selectors and their names; KeyError for an unknown team |
| Metrics.NamedSelector | incenp/grainyhead/metrics.py:128-133 | `X AS name` names the filter |
| Metrics.ParsedTextUndated | incenp/grainyhead/metrics.py:126-156 | a sub-selector's text never starts with `date:` |
| Metrics.DatedFilter | incenp/grainyhead/metrics.py:150-156 | the period filter accepts inside the window and keeps the selector's name and text |
| Metrics.ExpandEachIdentity | incenp/grainyhead/metrics.py:111-124 | expanding selectors without `*` changes nothing |
| Metrics.ExpandEachAppend | incenp/grainyhead/metrics.py:111-124 | expansion commutes with concatenation |
| Metrics.ExpandOneCases | incenp/grainyhead/metrics.py:115-124 | `user:*` gives one selector per contributor, `label:*` one per label, and a failed read of the labels is the expansion's error |
| Metrics.Select | incenp/grainyhead/metrics.py:63-109 | the filtered lists: OK iff every picked record's filter call succeeds |
| Metrics.SelectMeaning | incenp/grainyhead/metrics.py:63-109 | a record is selected iff picked and accepted |
| Metrics.ClosesSplit | incenp/grainyhead/metrics.py:69-80 | issue closes plus pull request closes are all accepted closes |
| Metrics.ReportFields | incenp/grainyhead/metrics.py:63-109 | the nine counts; contributors at most the openings, comments and closes |
| Metrics.MatchesMeaning | incenp/grainyhead/metrics.py:63-109 | on success every list was read, and each counted list holds the records of its channel that the filter accepts |
| Metrics.ReadFailuresEscape | incenp/grainyhead/metrics.py:63-109 | a failed read of the issues, or of the events after the issues were filtered, is the error of the selector's report |
| Metrics.Contributions | incenp/grainyhead/metrics.py:53-61 | one report per selector, in order; a failure is some selector's failure |
| Metrics.ReportFor | incenp/grainyhead/metrics.py:53-61 | the report set carries its period; on success one report per selector, in order, each that selector's report with its filter restricted to the period; a failure is some selector's failure |
| Metrics.Windows | incenp/grainyhead/metrics.py:40-49 | at least one period |
| Metrics.WindowsShape | incenp/grainyhead/metrics.py:40-49 | period k runs from `start + k·p` to one day before the next one starts; every period but the last ends by `end`, the last after it |
| Metrics.WindowsStep | incenp/grainyhead/metrics.py:40-49 | the first period and the rest |
| Metrics.ReportsOverAppend | incenp/grainyhead/metrics.py:40-49 | one more period appends its report set |
| Metrics.GetReport | incenp/grainyhead/metrics.py:32-51 | expansion errors first; one report set without a period, one per period with one |
| Metrics.ReportSeries | incenp/grainyhead/metrics.py:40-49 | the period loop returns the report sets of all windows |
| Metrics.ReportsOverStep | incenp/grainyhead/metrics.py:40-49 | one more window appends or fails |
| Metrics.ReportsOverError | incenp/grainyhead/metrics.py:40-49 | a failing prefix fails the whole |
| Metrics.PeriodStep | incenp/grainyhead/metrics.py:41-49 | one pass of the loop ends it iff the period's last day is after `end`, and otherwise moves the start on by one period |
| Metrics.ZeroPeriodNeverEnds | incenp/grainyhead/metrics.py:41-49 | with a zero period and a start no later than one day after `end`, no number of passes ends the loop or moves the start |
| Metrics.PositivePeriodEnds | incenp/grainyhead/metrics.py:41-49 | with a positive period the loop ends after exactly as many passes as there are windows |
| Conversions.UnitDays | src/incenp/grainyhead/util.py:23 | each unit is at least one day |
| Conversions.ParseDuration | src/incenp/grainyhead/util.py:118-121 | a match always carries one of the four units |
| Conversions.Relative | src/incenp/grainyhead/util.py:123-124 | months of a relative delta are normalised below 12 |
| Conversions.RelativeUnits | src/incenp/grainyhead/util.py:24 | relative durations are calendar days, weeks, months or years |
| Conversions.DurationRoundTrip | src/incenp/grainyhead/util.py:102-128 | a count and unit read back, with the final-newline form |
| Conversions.DurationRejects | src/incenp/grainyhead/util.py:118 | what the duration syntax refuses |
| Conversions.DurationInverse | src/incenp/grainyhead/util.py:118 | an accepted text decomposes into count, unit, optional newline |
| Conversions.DigitIsNoDateKeyword | src/incenp/grainyhead/util.py:51-54 | a digit start is no keyword |
| Conversions.ConvertDateKeywords | src/incenp/grainyhead/util.py:47-54 | `now`, `origin` in any case, and a date passes through |
| Conversions.ConvertDateDuration | src/incenp/grainyhead/util.py:55-56 | a duration is that many days before now, or OverflowError |
| Conversions.ConvertDateFallsToDate | src/incenp/grainyhead/util.py:57-64 | a digit start that is no duration is a date or refused |
| Conversions.NotDuration | src/incenp/grainyhead/util.py:118 | four digits then a dash is no duration |
| Conversions.TwoDigitFields | src/incenp/grainyhead/util.py:25 | `%m`/`%d` accept two-digit months and days |
| Conversions.ParseDateFields | src/incenp/grainyhead/util.py:57-61 | `YYYY-MM-DD` reads as that day when it exists |
| Conversions.ParseMonthFields | src/incenp/grainyhead/util.py:57-61 | `YYYY-MM` reads as the first of the month |
| Conversions.ConvertDateText | src/incenp/grainyhead/util.py:57-62 | both date forms at midnight UTC |
| Conversions.ConvertDateOfFields | src/incenp/grainyhead/util.py:57-64 | a year and a dash is a date or refused |
| Conversions.ConvertDateInvalid | src/incenp/grainyhead/util.py:57-64 | a non-existent day is refused |
| Conversions.IntervalKeywords | src/incenp/grainyhead/util.py:83-95 | each keyword equals its numeric spelling |
| Conversions.OneDigitInterval | src/incenp/grainyhead/util.py:96-97 | a digit and unit read as that interval |
| Conversions.IntervalDuration | src/incenp/grainyhead/util.py:87-99 | a count and unit in any case is that interval; otherwise refused |
| Conversions.DigitIsNoIntervalKeyword | src/incenp/grainyhead/util.py:88-95 | a digit start is no interval keyword |
| Conversions.UpperUnitIsNoDate | src/incenp/grainyhead/util.py:55-64 | an upper-case unit fails as a date |
| Repositories.CommittersExact | src/incenp/grainyhead/repository.py:71-79 | committers are exactly the non-bot COMMITTERS logins |
| Repositories.CommentersExact | src/incenp/grainyhead/repository.py:81-97 | commenters are exactly the non-bot authors of plain issues and comments |
| Repositories.ContributorsAreHumans | src/incenp/grainyhead/repository.py:67-97 | no contributor login ends in `[bot]` |
| Repositories.TeamMapLast | src/incenp/grainyhead/repository.py:103-108 | a slug is mapped iff some team has it, to the last such team |
| Repositories.BuildTeamMap | src/incenp/grainyhead/repository.py:105-107 | the team loop builds `TeamMap` |
| Repositories.ListOf | src/incenp/grainyhead/repository.py:96 | `list(set(...))` holds each element once |
| Repositories.Repository.constructor | src/incenp/grainyhead/repository.py:21-27 | a fresh provider, no caches, no API calls |
| Repositories.Repository.Fetch | src/incenp/grainyhead/repository.py:29-59 | the provider's answer, which asking does not change |
| Repositories.Repository.Issues | src/incenp/grainyhead/repository.py:29-31 | open plain issues |
| Repositories.Repository.AllIssues | src/incenp/grainyhead/repository.py:33-35 | every plain issue |
| Repositories.Repository.PullRequests | src/incenp/grainyhead/repository.py:37-39 | open pull requests |
| Repositories.Repository.AllPullRequests | src/incenp/grainyhead/repository.py:41-43 | every pull request |
| Repositories.Repository.View | src/incenp/grainyhead/repository.py:45-59 | comments, events, commits, releases as provided |
| Repositories.Repository.Labels | src/incenp/grainyhead/repository.py:61-65 | label names, computed once and kept |
| Repositories.Repository.CreateLabelNamed | src/incenp/grainyhead/repository.py:120-123 | an API call and an appended name iff the label is new; labels unchanged otherwise |
| Repositories.Repository.CloseIssue | src/incenp/grainyhead/repository.py:125-130 | optional add-label, optional comment, then close, in that order |
| Repositories.Repository.GetTeam | src/incenp/grainyhead/repository.py:103-108 | members of the last team with that slug; KeyError if none; a failed fetch leaves an empty map |
| Repositories.Repository.Collaborators | src/incenp/grainyhead/repository.py:99-101 | members of `__collaborators` |
| Repositories.Repository.Committers | src/incenp/grainyhead/repository.py:71-79 | non-bot committers, computed once and kept |
| Repositories.Repository.Commenters | src/incenp/grainyhead/repository.py:81-97 | distinct non-bot commenters, computed once and kept |
| Repositories.Repository.Contributors | src/incenp/grainyhead/repository.py:67-69 | committers and commenters as a set; the first error escapes |
| Repositories.Repository.GetUsernames | src/incenp/grainyhead/repository.py:110-118 | dispatch on the three reserved names, otherwise team members |
| OriginalRepositories.GetMetrics | fbcam/grainyhead/repository.py:87-221 | team first, then the lists in source order; the summary and one entry per contributor |
| OriginalRepositories.ReadActivity | fbcam/grainyhead/repository.py:114-176 | the windowed lists, with the first exception in source order |
| OriginalRepositories.BuildIndividuals | fbcam/grainyhead/repository.py:192-217 | one entry per contributor with that contributor's counts |
| OriginalRepositories.AuthorLogins | fbcam/grainyhead/repository.py:169-172 | commits with an author, at most one login each |
| OriginalRepositories.AuthorLoginsExact | fbcam/grainyhead/repository.py:169-172 | exactly the logins of commits with an author |
| OriginalRepositories.SplitAddsUp | fbcam/grainyhead/repository.py:116-120 | internal + external = all, a partition |
| OriginalRepositories.ContributorsAddUp | fbcam/grainyhead/repository.py:185-190 | contributor internal + external = total |
| OriginalRepositories.SummaryCounts | fbcam/grainyhead/repository.py:92-190 | `to` holds the start and `from` the end; six counts split into members and others; commit authors split while every commit counts in `all`; releases are a total; contributors split |
| OriginalRepositories.CommitAuthorsAtMost | fbcam/grainyhead/repository.py:166-172 | commits with an author never outnumber the commits |
| OriginalRepositories.WindowIsStrict | fbcam/grainyhead/repository.py:114-164 | openers and commenters come from records created strictly inside the window |
| OriginalRepositories.CommitWindowIsStrict | fbcam/grainyhead/repository.py:166-172 | commit authors come from commits strictly inside the window |
| OriginalRepositories.ActorlessEventRaises | fbcam/grainyhead/repository.py:122-156 | a closing or merging event in the window without actor raises AttributeError |
| OriginalRepositories.IndividualTotals | fbcam/grainyhead/repository.py:192-217 | per-individual sums equal the totals for openings, closes and comments; at most the totals for merges and commits |
| OriginalRepositories.ContributorHasAction | fbcam/grainyhead/repository.py:178-184 | every contributor has an opening, close or comment |

## Left out

- Network, file and terminal I/O. Also left out: JSON (de)serialisation, `makedirs`, and the clock (a parameter), and logging.
- The command-line layer. Left out: all of `main.py` in each generation, the click commands and configuration, `_parse_github_url`, `sleep(randint(2, 10))` throttling, and `CachePolicy.ClickType`.
- The output formatters (text, JSON, Markdown and CSV rendering) and their floating-point percentages.
- Date formatting with `strftime`. The period and the dates of a report are kept as times.
- Calendar arithmetic of `relativedelta` and month-end clamping. Periods of `get_report` are fixed-length steps.
- Unicode: digits other than ASCII `0`–`9`, which `strptime` accepts in `%Y` and `%d` (its patterns use `\d`), and `str.lower()` beyond ASCII letters.
- The date parsing of `gh2date` and of `strptime` with time zones. Records carry integer times.
- Online.Fetched: models `_fetch` as its callers evidently intend, with a fresh `apiargs` on every call. As written, the default `apiargs={}` (`src/incenp/grainyhead/providers.py:270`, `incenp/grainyhead/providers.py:264`) is one dictionary shared by all calls, and `apiargs['since'] = ...` (line 279, and 273 in the middle generation) writes into it. After a fetch of comments, labels or commits with `since`, every later call that uses the default dictionary keeps sending that `since`: full listings of comments, labels and commits, the event and release listings, the team list and the collaborator list. `Online.FetchedAsWritten` models this (see Findings), and the rest of the model uses `Online.Fetched`.
- Metrics.RepoView: each list is read once per report, as one `Result`. The source asks the provider again at each property access, so a read that failed once could succeed on a later access. The team table is taken as already read.
- The provider of the oldest generation. `fbcam/grainyhead/providers.py` is not part of this model. Its records are taken to behave as the newer generations' wrappers.
- Errors raised by the write calls of the API (`create_label`, `add_labels`, `create_comment`, `update`). They are recorded in order and assumed to succeed.
- Repositories.Repository.GetTeam: `members` holds logins rather than member objects. `collaborators` and `get_usernames` read `.login` from them.
- OriginalRepositories.GetMetrics: `individuals` follows the set's iteration order, which Python leaves unspecified. The contract states the entries for any order.
- Metrics.Windows: the period is a fixed number of seconds, not calendar months.

## Findings

| source | as written | input that shows it | evidently intended | confidence | as-written member | corrected member |
|---|---|---|---|---|---|---|
| src/incenp/grainyhead/caching.py:91 | `os.path.getmtime()` is called without the path | any call of `refresh_file` | `self.refresh(os.path.getmtime(pathname))` | not executed | Caching.RefreshFileAlwaysRaises | Caching.RefreshFileFollowsRefresh |
| src/incenp/grainyhead/providers.py:362-368 | a stale file's last record is read before the file is checked for being empty | `releases.json` holding `[]` and older than the maximum age | an empty file is refetched in full | not executed | FileCache.EmptyStaleReleasesCrash | FileCache.DecideCases |
| incenp/grainyhead/caching.py:46-81 | the resume date is read before the emptiness check; COMMITTERS falls into the `created_at` branch | a stale empty `events.json`; a stale non-empty `committers.json` | full refetch for empty files and for COMMITTERS | not executed | LegacyCache.DecideAsWrittenCrashes | LegacyCache.DecideCases |
| src/incenp/grainyhead/providers.py:270-279 | the default `apiargs={}` is one shared dictionary, and `_fetch` stores `since` into it | `get_data(COMMENTS, since=x)`, then `get_data(COMMITS)` | a fresh dictionary per call, so a later full fetch has no `since` | not executed | Online.SinceLeaksIntoLaterFetches | Online.SinceRouting |
| incenp/grainyhead/metrics.py:35-49 | only `period is None` is checked, and a zero period is accepted by the interval parser (`incenp/grainyhead/util.py:103-108`); the loop then neither moves `start` nor ends | `--period 0` with `start` no later than one day after `end` | a positive period, for which the loop ends | not executed | Metrics.ZeroPeriodNeverEnds | Metrics.PositivePeriodEnds |
| incenp/grainyhead/filtering.py:179-190 | `IntersectionFilter` derives from `ItemFilter`, so its `name` and `str` are the default object text | `IntersectionFilter([NullFilter()])` | a `CombinedFilter` with operator `&` | not executed | Filtering.IntersectionNameLost | Filtering.ShownReadable |
