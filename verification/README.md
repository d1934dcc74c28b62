# IP country service: verified model

A Dafny model of the parts of the IP country service and its tooling that finite tests cannot settle, with
proofs of what they guarantee. Four components are modelled.

**The cache-aside lookup protocol.** A lookup reads the clock, selects the cached row, serves it if it is
fresh, and otherwise asks the provider with bounded retries, reads the clock again and upserts. Any number of
lookups in any number of replicas interleave at every await over one table.

- `domain.dfy` and `wrappers.dfy` hold the values that are exchanged; `upstream.dfy` says what one HTTP attempt
  means, when the retries end and how long they wait; `replies.dfy` proves this of the replies' statuses, fields and
  white space themselves.
- `protocol.dfy` is the step relation: events, states, legal runs, and the invariant of every reachable state.
- `runs.dfy` traces what is stored and served back to the provider's replies; `spacing.dfy` bounds how often
  the provider refreshes one address, `guards.dfy` has the exact condition under which it does so no more often,
  by comparing a run with those in which one answer is timed differently, and `races.dfy` has the runs in which
  it does; `balance.dfy` says what every counter counts and why they balance.
- `service.dfy` has the source's objects (metrics, repository, provider, service) with their updates in place.
  `calls.dfy` tells what a call answers, stores and counts from what it meets alone, without any of the operations.
  `simulation.dfy` proves that one call of the service continues a run of the protocol by one lookup, so every
  result about runs holds of the objects too.

Time is an input. Nothing about it is assumed except where a statement says so: the second reading of a miss must not
precede its first for `Runs.SuccessesAreFresh`, and neither within the lookups of an address for `Spacing` (`Monotone`),
where readings of different lookups, which may come from different replicas, need not agree in any way. What must not
overlap there are the lookups of the address (`Separate`), or less strictly, no commit may replace a row that was fresh
at the start of its own lookup (`Guarded`). A lookup whose upsert was reported as failed is not over before that upsert
has committed after all or has been aborted. The metrics results need no such condition, and hold for each replica by
itself.

**The dashboard layout.** `shelves.dfy` is the geometry of the greedy shelf packer: fewest shelves, how high,
no overlap, reading order. `heights.dfy` and `widths.dfy` say when a row is the lowest. `layout.dfy` has the mutable
panels and the layout object, whose methods write ids and positions into the panels and are proved to produce that
geometry.

**The dashboard validator.** `rewriting.dfy` defines left-to-right replacement and proves when a chain of
replacements is one pass over the text. `expressions.dfy` applies this to the variables of PromQL expressions,
`matchers.dfy` says what becomes of quoted label matches, and `selections.dfy` what each dashboard's own selections
become in any expression, with the names and values written out. Whether the whole rendering of an expression is one
pass is settled by the files `seams.dfy` (what the dashboards' own replacements can touch), `lean.dfy` (rules that a
pass does not need), `single_pass.dfy` (safe namespaces), `unsafe_namespaces.dfy` (an expression for each unsafe one),
`database_dashboard.dfy` (the one dashboard whose own values complete mentions) and `one_pass.dfy`.
`panels.dfy` and `queries.dfy` find the panels and the queries of a document by position, `documents.dfy` says which
these are in terms of the fields and items as they are written, and on which documents the script stops.
`validator.dfy` has the tallies and the exit code, and `script.dfy` the loops that compute them.

**The traffic generator.** `percentiles.dfy` is the nearest-rank percentile over real numbers; `traffic.dfy` is the
request mix and its spread over the base URLs.

Some statements one would like to make are false of the code. Each has a concrete input on which it fails and the
exact condition under which it holds:

- Rendering is not always one pass over the expression with all replacements side by side.
  - For a dashboard and a namespace it is, for all expressions, exactly if the dashboard is not the database one and
    the namespace is safe: it neither begins, ends nor holds a piece of a pattern (`OnePassExactly.RenderIsOnePassIff`
    with `SinglePass.SafeNamespace`). The script's default namespace is safe. With the namespace `d`,
    `$po__APP_NAMESPACE__` is rendered as `.*` (`OnePassExactly.NamespaceCompletesMention`).
  - On the database dashboard, with a safe namespace, it is for an expression exactly if none of
    `$po${namespace:regex}`, `$workloa${namespace:regex}` and `${${namespace:regex}:regex}` occurs in it
    (`OnePassExactly.DatabaseIsOnePassIff`). The first of them is rendered as `.*atabase`
    (`OnePassExactly.UnfinishedMentionRendered`).
- Quoted matches are not always turned into matches that every value meets, which is what the replacements of
  `="$v"` are for. They are exactly for `=~`, and for `=` unless it is against `${v:regex}`
  (`Matchers.SelectsEverythingIff`). `!~"$v"` becomes `!~".*"`, which no value meets, `="${v:regex}"` becomes `=".*"`,
  which only the value `.*` does, `!="${v:regex}"` becomes `!=".*"`, which all others do, and `!="$v"` becomes
  `!=~".*"`, which is no match at all (`Matchers.SelectedOtherwise`, `Matchers.RenderedTexts`).
- The greedy rows are not always the lowest (`Shelves.PackNotAlwaysLowest`, 20 against 11). Given the widths, the row
  is the lowest for all heights exactly if no break leaves room for the panel after it beside the panel before it
  (`Heights.LowestForAllHeightsIff`). Given the heights, it is the lowest for all widths exactly if no panel is lower
  than two later ones (`Widths.LowestForAllWidthsIff`), or than two of the 24 after it if every panel takes a column
  (`Widths.LowestForPositiveWidthsIff`). A row is never more than twice as high as any other split in order.
- The entries of a layout are not always numbered by their positions: a panel that is added twice is moved and
  numbered again (`Layouts.ListedTwice`). They are exactly if no panel is listed twice
  (`Layouts.NumberedIffDistinct`).
- The summary's `dashboards` counts are not the totals of their uids: a file overwrites the count of an earlier
  one with its uid (`Validator.CountMissesTotal`, count 0 and total 1). They agree exactly if no earlier file with
  that uid has a query (`Validator.CountMatchesTotalIff`). The per-dashboard totals do sum up, whatever the files
  share.
- The provider can be asked twice within a TTL, and a row can go back to an older answer, if lookups of the address
  overlap (`Races.OverlapRefetches`, `Races.RowGoesBack`). A commit stores a record fetched at least a TTL after the
  one it replaces, whenever its lookup is answered after it started, exactly if the replaced row was not fresh at the
  reading the lookup started with; and it never takes the row back exactly if that row had been fetched by then
  (`Guards.GuardedIff` with gaps of a TTL and of 0, `Guards.GuardIsStaleness`). If not, another lookup has committed
  after this one's SELECT (`Guards.UnguardedIsOvertaken`), so lookups that do not overlap meet both conditions
  (`Spacing.SeparateIsGuarded`).
- Nor is a refresh always a TTL after the last if lookups do not overlap: the clock can fall back within one
  (`Races.FallbackRefetches`). A lookup that runs alone refreshes a TTL after the last refresh, whatever has happened
  before, exactly if its second reading is no earlier than its first (`Races.RefreshesLaterIff`).
- A stored country code need not be two capital letters: `中国` is accepted (`Upstream.OtherCodesNeedNotBe`). It always
  has two characters, and they are capitals exactly if the capital form of the reply's code is ASCII
  (`Upstream.CapitalsIffAscii`): so for all ASCII codes, and also for `ß`, which is stored as `SS`
  (`Upstream.SharpSIsCapitals`).

`dafny verify dfyconfig.toml` checks the whole project.

## Model

| member | source | states |
|---|---|---|
| Protocol.RunsKeepInv | src/ip_country_api/services/ip_lookup_service.py:30-73 | in every reachable state of every interleaving the table is its log of commits read backwards, every committed record is timed by the TTL and fits the columns, and every lookup is consistent with the row its SELECT saw |
| Runs.RowsAreGenuine | src/ip_country_api/services/ip_lookup_service.py:48-59 | every row belongs to its key, expires one TTL after it was fetched, and holds what the provider answered some lookup of that same address at that time |
| Runs.RowsConverge | src/ip_country_api/repositories/ip_lookup_repository.py:56-82 | whatever upserts for one address committed in whatever order, the row has the payload and update time of the last and the creation time of the first |
| Runs.RowIffCommitted | src/ip_country_api/repositories/ip_lookup_repository.py:32-48 | an address has a row exactly if an upsert for it has committed |
| Runs.HitsAreFresh | src/ip_country_api/services/ip_lookup_service.py:32-44 | a hit is the last commit before its own SELECT, unexpired at the reading the lookup started with, even if others committed in between |
| Runs.MissesAreFetched | src/ip_country_api/services/ip_lookup_service.py:46-73 | a miss saw no fresh row, serves the code and the name of its own provider's reply, and has committed exactly that record; it outlives the start of the lookup exactly if the clock did not fall back by the TTL or more |
| Runs.StoredIsServed | src/ip_country_api/services/ip_lookup_service.py:32-44 | in every run, what the last commit before a lookup's SELECT stored is what its read is answered with if it expires after the lookup started, whoever committed it and whatever was reported; otherwise the provider is asked |
| Runs.SuccessesAreFresh | src/ip_country_api/services/ip_lookup_service.py:31-73 | every success carries provider data for its own address and expires strictly after it started: a hit always, a miss with a positive TTL and a clock that is monotone within the lookup |
| Spacing.CalmRunsStayOrderly | src/ip_country_api/services/ip_lookup_service.py:32-59 | while lookups of an address do not overlap and the clock does not fall back within one, its commits stay a TTL apart and in lookup order, and an unfinished lookup still knows the last commit |
| Spacing.SeparateRunsStayInformed | src/ip_country_api/services/ip_lookup_service.py:32-59 | without overlap, and whatever the clocks read, an unfinished lookup still knows the last commit, and commits come in lookup order |
| Spacing.SeparateIsGuarded | src/ip_country_api/services/ip_lookup_service.py:32-59 | without overlap, and whatever the clocks read, every commit replaces a row that was fetched a TTL before its lookup started |
| Spacing.GuardedRunsStayGapped | src/ip_country_api/services/ip_lookup_service.py:48-59 | with overlaps too, if every commit replaces a row fetched a gap before its lookup started, and the clock does not fall back within a lookup, any two commits of the address are that gap apart |
| Guards.RetimedRuns | src/ip_country_api/services/ip_lookup_service.py:46-59 | until a lookup commits, the run in which its answer came at any other time is possible too and differs in that lookup alone |
| Guards.GuardedIff | src/ip_country_api/services/ip_lookup_service.py:48-59 | in any run, every commit of the address stores a record fetched a gap after the one it replaces, whenever its lookup is answered from its start on, exactly if every replaced row was fetched that gap before the lookup started |
| Guards.GuardIsStaleness | src/ip_country_api/services/ip_lookup_service.py:34-44 | for a gap of a TTL that is that the replaced row was not fresh at the reading the lookup started with |
| Guards.UnguardedIsOvertaken | src/ip_country_api/services/ip_lookup_service.py:34-59 | where it fails, another lookup has committed the row after this one's SELECT, so that the two overlap |
| Spacing.RefreshesApart | src/ip_country_api/services/ip_lookup_service.py:34-59 | any two commits of one address by different lookups are at least a TTL apart, also if an upsert was reported as failed |
| Spacing.RefreshesSpan | src/ip_country_api/services/ip_lookup_service.py:32-59 | n such refreshes span at least n - 1 TTLs, whatever lookups lie between |
| Spacing.SuccessesApart | src/ip_country_api/services/ip_lookup_service.py:49-72 | provider-sourced successes of one address are pairwise at least a TTL apart |
| Races.OverlapRefetches | src/ip_country_api/services/ip_lookup_service.py:46-49 | two overlapping lookups can both be served by the provider at one and the same time though their clocks agree and never fall back, under any settings |
| Races.FallbackRefetches | src/ip_country_api/services/ip_lookup_service.py:32-49 | of two lookups that do not overlap, the second can be served by the provider within a TTL of the first if its clock falls back between its own two readings, by however little |
| Races.RefreshesLaterIff | src/ip_country_api/services/ip_lookup_service.py:32-59 | a lookup that runs alone refreshes a TTL after the last refresh, whatever has happened before, exactly if its second reading is no earlier than its first |
| Races.RowGoesBack | src/ip_country_api/services/ip_lookup_service.py:48-59 | under overlap a later commit can replace the row by an older answer |
| Races.RowsNeverGoBack | src/ip_country_api/services/ip_lookup_service.py:32-59 | if every commit replaces a row that had been fetched when its lookup started, and the clock does not fall back within a lookup, the row's fetch time never decreases over the rest of any run |
| Races.SeparateRowsNeverGoBack | src/ip_country_api/services/ip_lookup_service.py:32-59 | so it is without overlap |
| Balance.CountersMean | src/ip_country_api/observability/metrics.py:96-116 | in every reachable state every counter of an instrumented replica is the number of its lookups in a phase that has incremented it, and a disabled one counts nothing |
| Balance.AlwaysBalanced | src/ip_country_api/services/ip_lookup_service.py:33-64 | the three balance equations hold in every reachable state up to the lookups still in flight, and provider errors equal failed provider requests |
| Balance.QuiescentBalance | src/ip_country_api/repositories/ip_lookup_repository.py:39-87 | when no lookup of the replica is in flight they hold exactly |
| Upstream.AttemptsExist | src/ip_country_api/providers/ipinfo.py:68-75 | every stream of attempts ends a lookup after some number of them |
| Upstream.AttemptsBounded | src/ip_country_api/providers/ipinfo.py:68-75 | that number is unique and at most the retries plus one; all but the last attempt were retryable, and the last is too only if the retries are used up |
| Replies.RetryableIffTransient | src/ip_country_api/providers/ipinfo.py:96-112 | an attempt is retried exactly if it timed out, broke down, or was answered with a status of 500 or more |
| Replies.UsableIffAccepted | src/ip_country_api/providers/ipinfo.py:24-39 | an attempt gives an answer exactly if its status is below 400 and its fields are a two-letter code and a country that is 1 to 128 characters long without the white space at its ends; the answer is these |
| Replies.FailsForReason | src/ip_country_api/providers/ipinfo.py:79-112 | it fails for authentication at 401 and 403, for the rate at 429, as unavailable or timed out if transient, and as invalid at other statuses from 400 on and with other fields, and for these reasons only |
| Replies.MakesIffEndsAfter | src/ip_country_api/providers/ipinfo.py:68-75 | a lookup makes that many attempts of which all but the last are transient, and the last is only if the retries are used up |
| Replies.TrimmedIsStrip | src/ip_country_api/providers/ipinfo.py:36 | stripping is the one way to cut white space from both ends and nothing else |
| Upstream.UsableFitsColumns | src/ip_country_api/providers/ipinfo.py:24-39 | an accepted reply has a code of two characters and a trimmed, non-empty name of at most 128 characters |
| Upstream.CapitalsIffAscii | src/ip_country_api/providers/ipinfo.py:24-30 | an accepted code is two capitals exactly if the capital form of what the reply said is ASCII, for any tables of Unicode that agree with ASCII |
| Upstream.AsciiCodesAreCapitals | src/ip_country_api/providers/ipinfo.py:24-30 | so it is if what the reply said was ASCII |
| Upstream.SharpSIsCapitals | src/ip_country_api/providers/ipinfo.py:24-30 | and also for the one-letter code `ß`, which is stored as `SS` |
| Upstream.OtherCodesNeedNotBe | src/ip_country_api/providers/ipinfo.py:24-30 | a code of two ideographs is accepted as it is |
| Upstream.TotalPauseFormula | src/ip_country_api/providers/ipinfo.py:70 | r retries wait 2^r - 1 tenths of a second up to 4 and 15 + 10 * (r - 4) beyond, so at most 2.5 seconds for the allowed settings |
| Service.ApplicationMetrics.Increment | src/ip_country_api/observability/metrics.py:96-116 | one more of the counter if metrics are enabled, nothing otherwise |
| Service.PostgreSQLLookupRepository.Get | src/ip_country_api/repositories/ip_lookup_repository.py:32-53 | the row under the key or none, or unavailable; the operation is counted in any case, the error if there is one |
| Service.PostgreSQLLookupRepository.Upsert | src/ip_country_api/repositories/ip_lookup_repository.py:56-87 | inserts, or updates all but the creation time; a failure may come before or after the commit; what it counts |
| Service.IPinfoLiteProvider.Request | src/ip_country_api/providers/ipinfo.py:95-116 | one attempt as a response, a retryable error, or an error that is already counted, by its status |
| Service.IPinfoLiteProvider.Lookup | src/ip_country_api/providers/ipinfo.py:64-93 | makes exactly the attempts it should, all but the last transient; the last alone decides result and counters, by its status and fields; the pauses add up, and counted errors keep matching failed requests over any sequence of lookups |
| Service.IPLookupService.Lookup | src/ip_country_api/services/ip_lookup_service.py:30-73 | answers, stores and counts what it is to from what it meets: the row if it is fresh, else the last reply, timed by the reading after it; and continues the run its objects have come to by exactly one finished lookup with those replies and readings |
| Calls.OutcomeBehaves | src/ip_country_api/services/ip_lookup_service.py:30-73 | where the protocol says that a lookup ends is what a call is to do, told from its readings, replies and row alone |
| Calls.FailsOrAnswers | src/ip_country_api/providers/ipinfo.py:67-93 | each attempt fails for a reason or gives an answer, so that a call is told completely |
| Simulation.WholeLookup | src/ip_country_api/services/ip_lookup_service.py:30-73 | after any run some continuation performs one uninterrupted lookup, and ends as the sequential reading of the code says |
| Shelves.PackKeepsItems | deploy/scripts/build-sre-dashboards.py:131-143 | the shelves are the items in their order, none lost or repeated |
| Shelves.PackFewestShelves | deploy/scripts/build-sre-dashboards.py:129-144 | no split of the items into consecutive groups that fit uses fewer shelves |
| Shelves.PackIsFeasibleIff | deploy/scripts/build-sre-dashboards.py:131-137 | every shelf fits the 24 columns exactly if every item does |
| Shelves.NeighboursOverflow | deploy/scripts/build-sre-dashboards.py:131-143 | two neighbouring shelves are together wider than the grid |
| Shelves.PackShelvesBound | deploy/scripts/build-sre-dashboards.py:131-143 | items of total width W take at most 2 * (W / 25) + 1 shelves |
| Shelves.PackAtMostTwiceAsHigh | deploy/scripts/build-sre-dashboards.py:129-144 | the row is at most twice as high as any feasible split that keeps the order |
| Shelves.PackLowestWhenLevel | deploy/scripts/build-sre-dashboards.py:129-144 | with items of one height no such split is lower |
| Shelves.PackNotAlwaysLowest | deploy/scripts/build-sre-dashboards.py:129-144 | with different heights a row can be higher than another split, 20 against 11 |
| Heights.LowestForAllHeightsIff | deploy/scripts/build-sre-dashboards.py:129-144 | given the widths, the row is the lowest for all heights exactly if, unless a panel is wider than the grid, no break leaves room for the panel after it beside the panel before it |
| Heights.TightIsLowest | deploy/scripts/build-sre-dashboards.py:129-144 | with such breaks the row is the lowest for its own heights, among all splits that keep the order |
| Widths.LowestForAllWidthsIff | deploy/scripts/build-sre-dashboards.py:129-144 | given the heights, the row is the lowest for all widths exactly if no panel is lower than two later ones |
| Widths.LowestForPositiveWidthsIff | deploy/scripts/build-sre-dashboards.py:129-144 | and for all widths of at least one column exactly if no panel is lower than two of the 24 after it |
| Widths.DescendingIsLowest | deploy/scripts/build-sre-dashboards.py:129-144 | so it is the lowest, for any widths, if no panel is higher than the one before it |
| Shelves.BuildInOrder | deploy/scripts/build-sre-dashboards.py:110-144 | after any rows ids are 1 to n in list order, sizes are unchanged, and each entry follows the one before it on its line or below it |
| Shelves.NoOverlap | deploy/scripts/build-sre-dashboards.py:115-144 | no two entries, headers included, cover a common cell |
| Shelves.ReadingOrder | deploy/scripts/build-sre-dashboards.py:115-144 | list order is strictly increasing in (y, x) |
| Shelves.RunningYIsBottom | deploy/scripts/build-sre-dashboards.py:127-144 | the running y is the largest bottom of all entries |
| Shelves.WithinColumnsIff | deploy/scripts/build-sre-dashboards.py:131-142 | every entry lies within the columns exactly if every item is at most that wide |
| Shelves.HeaderPlaced | deploy/scripts/build-sre-dashboards.py:115-127 | each row's header is 24 wide and one high, at the left end of the line below all entries, and its id counts on from theirs |
| Shelves.WithinGridIff | deploy/scripts/build-sre-dashboards.py:131-142 | every entry ends at column 24 or before exactly if every item is at most 24 wide |
| Shelves.PackTwo | deploy/scripts/build-sre-dashboards.py:134 | two items share a shelf exactly if they are together at most 24 wide |
| Layouts.NextItem | deploy/scripts/build-sre-dashboards.py:131-143 | an item stands right of the one before it if both end at column 24 or before there, else at the left end of a new line |
| Layouts.PanelsWithinIff | deploy/scripts/build-sre-dashboards.py:131-142 | in every layout all panels end at column 24 or before exactly if all are at most that wide |
| Layouts.LoopIsPacking | deploy/scripts/build-sre-dashboards.py:129-144 | the loop's cursor arithmetic places the items exactly on the greedy shelves |
| Layouts.Layout.constructor | deploy/scripts/build-sre-dashboards.py:110-113 | an empty layout |
| Layouts.Layout.Row | deploy/scripts/build-sre-dashboards.py:115-144 | appends a header and the items themselves, with ids and positions written into them as the packing of all rows so far says; an item listed before is moved |
| Layouts.PanelsDisjoint | deploy/scripts/build-sre-dashboards.py:110-144 | in every state a layout can reach no two different panel objects overlap |
| Layouts.NumberedIffDistinct | deploy/scripts/build-sre-dashboards.py:110-144 | the entries' ids are their positions exactly if no panel is listed twice |
| Rewriting.ChainIsScan | deploy/scripts/verify-sre-dashboards.py:121-135 | a chain of replacements whose insertions cannot touch later patterns equals one left-to-right pass |
| Rewriting.ScanRemoves | deploy/scripts/verify-sre-dashboards.py:121-135 | such a pass leaves no occurrence of a pattern, across the seams neither |
| Rewriting.ReplaceThenScan | deploy/scripts/verify-sre-dashboards.py:121-135 | a replacement before a pass can be taken into the pass if it starts no new match and breaks none |
| Expressions.NoMentionLeft | deploy/scripts/verify-sre-dashboards.py:121-135 | for every uid, expression and namespace the rendered text has no `${v:regex}`, `${v}` or `$v` of any generic variable |
| Expressions.NoRateIntervalLeft | deploy/scripts/verify-sre-dashboards.py:122-134 | nor the rate-interval placeholder |
| Expressions.GenericVariablesPrefixFree | deploy/scripts/verify-sre-dashboards.py:42-56 | no variable's name starts another's |
| Expressions.OrderIrrelevant | deploy/scripts/verify-sre-dashboards.py:125-134 | any two orders of prefix-free variables render every text alike |
| Expressions.OrderIrrelevantIff | deploy/scripts/verify-sre-dashboards.py:125-134 | two variables may be processed in either order exactly if neither name starts the other |
| Expressions.RenderIsOnePass | deploy/scripts/verify-sre-dashboards.py:125-135 | the generic replacements are one pass over the prepared text, in any order of the variables |
| DashboardSelections.PerformanceSelections | deploy/scripts/verify-sre-dashboards.py:23-28 | in any expression of the performance dashboard `${namespace:regex}` becomes `ip-country-api`, and pod, route and status code become `.*`, whatever stands around them |
| DashboardSelections.DatabaseSelections | deploy/scripts/verify-sre-dashboards.py:29-34 | on the database dashboard namespace, cluster, instance and database become `database`, `ip-country-postgres`, `.*` and `ip_country` in every expression that begins no mention which a value completes |
| DashboardSelections.CapacitySelections | deploy/scripts/verify-sre-dashboards.py:35-39 | on the capacity dashboard node, namespace and workload become `.*` |
| DashboardSelections.OverviewMentions | deploy/scripts/verify-sre-dashboards.py:42-56 | on the overview a selection of one of the thirteen variables becomes `.*`, and one of any other name stays |
| DashboardSelections.IntervalBecomes | deploy/scripts/verify-sre-dashboards.py:122 | the rate interval becomes `5m` on every dashboard and for every namespace |
| SinglePass.RenderIsAllRules | deploy/scripts/verify-sre-dashboards.py:121-135 | the rendering is the chain of all replacements: namespace, rate interval, the dashboard's, the variables' |
| OnePassExactly.RenderIsOnePassIff | deploy/scripts/verify-sre-dashboards.py:121-135 | for a dashboard and a namespace that chain is one pass over every expression exactly if the dashboard is not the database one and the namespace is safe |
| UnsafeNamespaces.UnsafeFails | deploy/scripts/verify-sre-dashboards.py:122 | an expression that shows it for each unsafe namespace |
| OnePassExactly.DefaultNamespaceIsSafe | deploy/scripts/verify-sre-dashboards.py:141 | the script's default namespace is safe for every dashboard |
| OnePassExactly.NamespaceCompletesMention | deploy/scripts/verify-sre-dashboards.py:122-134 | the namespace `d` completes a mention and it is lost |
| OnePassExactly.DatabaseIsOnePassIff | deploy/scripts/verify-sre-dashboards.py:29-34 | on the database dashboard, with a safe namespace, an expression is rendered in one pass exactly if none of three texts occurs in it |
| DatabaseDashboard.ChainIsOnePassIff | deploy/scripts/verify-sre-dashboards.py:124-134 | the same for its own and the variables' replacements, for every text |
| Lean.LeanScansAlike | deploy/scripts/verify-sre-dashboards.py:128-134 | a pass does not need the replacements of `=~` matches, next to those of the mentions in them |
| Matchers.MatchRendered | deploy/scripts/verify-sre-dashboards.py:128-134 | in any text, a match of a label against any mention of a variable becomes one against `.*`, with the operator changed after `=` and `!=` except for `${v:regex}`, and the text around it is rendered for itself |
| Matchers.WrittenMatches | deploy/scripts/verify-sre-dashboards.py:128-132 | the matches and their results as they are written |
| Matchers.SelectsEverythingIff | deploy/scripts/verify-sre-dashboards.py:126-132 | the match that comes out is met by every value of the label exactly if it was one with `=~`, or one with `=` and not against `${v:regex}` |
| Matchers.SelectedOtherwise | deploy/scripts/verify-sre-dashboards.py:126-134 | with `!~` it is met by no value, with `=` or `!=` against `${v:regex}` by the value `.*` alone or by all others, and with `!=` against another mention it is malformed |
| OnePassExactly.UnfinishedMentionRendered | deploy/scripts/verify-sre-dashboards.py:29-34 | the first of those texts: rendered it is `.*atabase`, in one pass it would be `$podatabase` |
| Expressions.RenderingIsIdempotent | deploy/scripts/verify-sre-dashboards.py:125-134 | rendering the variables again changes nothing |
| Expressions.PlainTextUnchanged | deploy/scripts/verify-sre-dashboards.py:125-134 | a text without a dollar sign is left alone |
| Expressions.RenderExpression | deploy/scripts/verify-sre-dashboards.py:121-135 | the nested loops compute the chain, with none of those tokens left |
| Panels.EachPanelOnce | deploy/scripts/verify-sre-dashboards.py:72-80 | the walk yields exactly the panel-shaped nodes at any depth, each once, in reading order |
| Documents.PanelsAsWritten | deploy/scripts/verify-sre-dashboards.py:72-80 | those are the objects with a field `targets` and a field `title`, at positions entered by items and field values |
| Queries.OneQueryPerTarget | deploy/scripts/verify-sre-dashboards.py:166-174 | a file's queries are those of its targets with an expression, one for each, by position, and no others |
| Documents.QueriesAsWritten | deploy/scripts/verify-sre-dashboards.py:166-174 | a target asks the non-empty text of its field `expr`, under its panel's title, and may be empty exactly if its field `validationAllowEmpty` counts as true; a file's queries are these, in order, and no others |
| Documents.GoodFileIff | deploy/scripts/verify-sre-dashboards.py:162-171 | the script gets through a file exactly if it names its uid and all its panels list targets that are objects with a text, or nothing, as `expr` |
| Documents.TitledRootIsGood | deploy/scripts/verify-sre-dashboards.py:72-80 | a root with a title and no targets is no panel, and the script goes on to those inside |
| Validator.DashboardTotalsSumUp | deploy/scripts/verify-sre-dashboards.py:241-254 | the per-dashboard totals sum to the global totals, for every tally, also if files share a uid |
| Validator.CountMatchesTotalIff | deploy/scripts/verify-sre-dashboards.py:165-223 | a dashboard's count is its last file's, and equals its total exactly if no earlier file with the uid has a query |
| Validator.CountMissesTotal | deploy/scripts/verify-sre-dashboards.py:165-223 | two files of one uid, the second without a query: count 0, total 1 |
| Validator.SummaryAddsUp | deploy/scripts/verify-sre-dashboards.py:225-240 | checks split into valid and invalid, valid ones into useful and empty, empty ones into allowed and unexplained |
| Validator.ClassifyTells | deploy/scripts/verify-sre-dashboards.py:182-222 | a check says of its query, rendered text and answer what is so: present, finite, all zero, allowed to be empty |
| Validator.TalliesMean | deploy/scripts/verify-sre-dashboards.py:225-254 | each tally is the number of queries whose answers are as it says, and each dashboard's the number of those of its own |
| Validator.ExitZeroIff | deploy/scripts/verify-sre-dashboards.py:225-262 | the exit code is 0 exactly if every answer is a result with finite values that are present or need not be |
| Script.CheckQuery | deploy/scripts/verify-sre-dashboards.py:175-222 | one query's check from its answer |
| Script.CheckPanel | deploy/scripts/verify-sre-dashboards.py:167-222 | one check per query of the panel, in order, unless a target stops the script |
| Script.Validate | deploy/scripts/verify-sre-dashboards.py:156-262 | the script stops exactly where a dashboard is malformed, told by its fields, else performs one check per query, renders each, says what is so of each, counts by uid and exits with 0 exactly if all answers are healthy, and with 1 otherwise |
| Percentiles.NearestRank | deploy/scripts/generate-observability-traffic.py:29-34 | for a quantile in (0, 1] the result is the one value with at least ceil(q * n) values at most it and fewer below it |
| Percentiles.ShareAtMost | deploy/scripts/generate-observability-traffic.py:29-34 | that is the one value that at least the given share of the values are at most, while less than that share are below it |
| Percentiles.NoValuesIsZero | deploy/scripts/generate-observability-traffic.py:30-31 | of no values it is zero |
| Percentiles.LowestAtZero | deploy/scripts/generate-observability-traffic.py:33 | at a quantile of 0 or less it is the least value |
| Percentiles.FailsIff | deploy/scripts/generate-observability-traffic.py:29-34 | indexing fails exactly if there are values and the quantile exceeds 1 |
| Percentiles.OrderIrrelevant | deploy/scripts/generate-observability-traffic.py:32-34 | the order of the values does not matter |
| Percentiles.MonotoneInQuantile | deploy/scripts/generate-observability-traffic.py:33 | higher quantiles give higher percentiles |
| Percentiles.SummaryInOrder | deploy/scripts/generate-observability-traffic.py:143-147 | p50, p95 and p99 are measured latencies in ascending order |
| Traffic.PairOccurs | deploy/scripts/generate-observability-traffic.py:40-69 | with a number of URLs coprime to 100 every pair of URL and bucket occurs among the first 100 * k requests |
| Traffic.PairsApart | deploy/scripts/generate-observability-traffic.py:40-69 | and two requests of one pair are at least 100 * k apart |
| Traffic.EvenIffCoprime | deploy/scripts/generate-observability-traffic.py:40-70 | over a multiple of 100 * k requests every pair occurs equally often exactly if k is coprime to 100 |
| Traffic.ExactMix | deploy/scripts/generate-observability-traffic.py:40-70 | then every URL receives exactly the mix of 85, 10, 3 and 2 |
| Traffic.ExactMixOverall | deploy/scripts/generate-observability-traffic.py:40-65 | whatever the URLs, every hundred requests together have that mix |
| Traffic.BucketDecides | deploy/scripts/generate-observability-traffic.py:40-65 | the bucket alone decides the request, also the health path that depends on the parity of the index |
| Traffic.RequestsSent | deploy/scripts/generate-observability-traffic.py:40-65 | every hundred requests are 85 lookups, 10 visits of the root, 2 and 1 of the health pages, and 2 invalid lookups, with their methods, paths and expected statuses |
| Traffic.UrlsInTurn | deploy/scripts/generate-observability-traffic.py:69 | the requests go to the URLs in turn |

## Left out

- Service.PostgreSQLLookupRepository.Upsert: one call has committed before it returns or never; a commit that arrives after the failure was reported is an event of `protocol.dfy` (`CommitLate`), of which all results about runs hold.
- Service.IPLookupService.Lookup: `await` points are those of the protocol; the class model runs one call at a time, and the interleavings are the events of `protocol.dfy`.
- Upstream.UsableFitsColumns: what Python's `upper` and `isalpha` say of a code is an input, as they follow Unicode's tables; white space is that of Python's `strip`.
- Matchers.SelectsEverythingIff: a label's value is matched against regular expressions of single characters, `.` and `*` only, with `.` for any character, the line feed included; matches are written without spaces and escapes.
- Layouts.Layout.Row: widths and heights are natural numbers that do not change, and the row's description is left out.
- Percentiles.NearestRank: quantiles and values are real numbers; the rounding of `quantile * len` is not modelled.
- Expressions.RenderExpression: texts are sequences of characters, with Python's `str.replace` for non-empty patterns.
- Script.Validate: what Prometheus answers is an input; the shape of its JSON, the parsing of sample values and a reply that makes the script raise are left out, and so are error texts and the list of failures.
- Queries.OneQueryPerTarget: objects have distinct keys, as Python's decoder leaves them; a `uid` that is not a string stops the model and not the script.
- Traffic.ExactMix: URLs are counted by their position in the list; equal URLs in the list share a count in the summary.
- Cancellation of a lookup, and exceptions outside the ones the source names, such as an invalid URL: the balances do not hold of them.
- Histograms, durations and the HTTP counters: real time only.
- The validation of addresses: an address is its canonical text.
- HTTP, SQL, routing, logging, settings, templates and deployment files: no logic of their own.
- The panel catalogues, the fake provider and the concurrency of the traffic generator's workers: constant data, or without effect on the counts.
