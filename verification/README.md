# Kustomer: licences, aggregation and the server's goroutines

Kustomer scans a folder of signed licence files, decides which of them are active, and tells
local clients what each product may use. This project models the parts of it that decide
something, and proves what they promise. Every loop over a Go map picks its next key
arbitrarily, so the results hold for every iteration order. A Go run-time panic is an outcome
of its own; of a claims generator run that panics or returns an error, only the failure counts.

| File | What it models |
|---|---|
| `Numbers.dfy`, `License.dfy` | int64 with wrap-around, binary64 with rounding to nearest even, claim values by their Go dynamic type, the claims of a licence |
| `Aggregation.dfy` | what the products handler computes for one product, and its closed form |
| `AggregationRules.dfy`, `AggregationPanics.dfy`, `DocumentedRules.dfy` | exclusive claims, sums, list union, exactness; exactly when decoded licences make the handler panic; two documented rules and exactly when the code agrees with them |
| `Slices.dfy`, `Plans.dfy`, `Interleaving.dfy` | Go slices on real arrays, what the aggregation may ever write to them, and list unions of concurrent requests |
| `Responses.dfy`, `ProductsHandler.dfy`, `ProductsResponse.dfy`, `Requests.dfy`, `Decoding.dfy` | the products handler: what it answers, its loops over mutable entries that share the licences' lists, and any number of requests |
| `LicenseSet.dfy`, `ReadingOrder.dfy`, `Scan.dfy`, `LicensesLoader.dfy` | stable sort, deduplication, history diff; exactly when the reading order shows; key selection; the loader that updates its history and fires its hooks |
| `ChangeDetection.dfy`, `Loader.dfy`, `HookCounts.dfy` | the closure of `Serve` that scans and publishes only on change, and the hooks, over whole runs of scans |
| `Protocol.dfy`, `ProtocolSafety.dfy`, `ProtocolProgress.dfy`, `ProtocolCompletion.dfy`, `ProtocolFairness.dfy`, `ProtocolRuns.dfy` | the goroutines of `Serve` and the request handlers as a step system; its invariants; exactly when it gets stuck; progress over all fair runs |
| `Fetcher.dfy` | the key set fetcher: retries over mirrors, and a cache validated by entity tags |
| `ClaimsGen.dfy`, `ClaimsGenOrder.dfy`, `ClaimsGenMeaning.dfy` | the claims generator: what it generates, and exactly when map order shows |
| `ProductJson.dfy` | the JSON form of a product |
| `EndToEnd.dfy`, `ResponseMeaning.dfy` | from the folder to the response; what a response on decoded licences says, licence by licence |

## Where the code differs from its documentation

The model follows the code. For each rule that fails, a lemma gives an input and another says
exactly when the code agrees with the rule.

- `docs/kopano-licenses.md:17-20` says that product entries with the same `lid` replace each
  other. The code never looks at `lid` (`AggregationRules.LicenseIdsAreIgnored`): two licences of
  5 users with one `lid` give 10 (`DocumentedRules.SameLidIsAdded`). The result is the documented
  one exactly if all replaced entries carry an exclusive list, or the handler panics with them and
  without them (`DocumentedRules.ReplacementIff`).
- `docs/kopano-licenses.md:117-123` lets a licence make claims exclusive. A decoded list has
  another Go type than the one the handler looks for, so such a licence is skipped as a whole
  (`DocumentedRules.DecodedListIsSkipped`, `ProductJson.ExclusiveListsDoNotSurvive`), and the code
  accepts the licences that the documented rule accepts exactly if none carries such a list
  (`DocumentedRules.ExclusivityIff`). For Go-typed lists, which no file contains, the rule holds
  for acceptance (`Aggregation.FoldIsSummary`); the aggregated value is the pinned one exactly
  under the condition of `AggregationRules.PinIsKeptIff`, as numbers that agree are still summed
  (`AggregationRules.NumericPinDrifts`).
- `docs/kopano-licenses.md:11-13` bounds the validity by `nbf`, or else `iat`, and `exp`. The code
  widens all bounds by 24 hours, and lets `iat` bound it even when `nbf` is present: inputs in
  `Scan.DatesDiffer`, the exact times in `Scan.DatesAgreeIff`.
- The comment at `licenses.go:41` says that being offline allows certificate keys for files whose
  key is not in the key set. Once a key set was fetched, an unknown key id is rejected
  (`Scan.UnknownKeyIdRejected`), even with a chain to a trusted root
  (`Scan.TrustedChainIsRejected`). The code takes a file as the comment says exactly if it is not
  one that only its chain would save (`Scan.CommentedKeyIff`, for a folder `Scan.CommentedScanIff`).
- The loader publishes only when it notices a change. This cache shows after a failed scan with a
  configured customer, when the licences of the last success stay served
  (`ChangeDetection.FailureKeepsLicense`), and after two files bring in one new id in the same
  scan (`ChangeDetection.StaleExample`). It is transparent over coherent runs exactly under the
  condition of `ChangeDetection.TransparentIff`, and over any run exactly under that of
  `ChangeDetection.TransparentThroughoutIff`; for the hooks see `HookCounts.HooksConservedIff`.
- With tied issue times the directory order can show in a response (`EndToEnd.TiesShow`). It shows
  in none if every tie is resolved by a newer licence (`EndToEnd.ReadingOrderDoesNotShow`), and that
  is exactly when it does not show in the deduplicated list (`ReadingOrder.OrderFreeIff`).
- The key set goroutine sends to `triggerCh` while it holds the write lock. It and the loader can
  block each other for good (`ProtocolProgress.DoomIsReachable`), and then no request that reads
  the claims is answered any more (`ProtocolProgress.DoomedReaders`). The exact configurations are those of
  `ProtocolProgress.NeverIffDoomed` and `ProtocolCompletion.CompletesIff`; if the buffer always
  has room at that send, every fair run makes progress (`ProtocolFairness.RunCompletes`).

## Model

| member | source | states |
|---|---|---|
| `Numbers.Wrap64` | server/handlers.go:267-271 | int64 addition wraps: the result differs from the exact sum by a multiple of 2^64, and equals it when it fits |
| `Numbers.Wrap64Absorbs` | server/handlers.go:267-271 | wrapping after every addition equals wrapping the exact sum once |
| `Numbers.Round64Exact` | server/handlers.go:276-281 | binary64 keeps every integer up to 2^53 in magnitude |
| `Numbers.Round64Iff` | server/handlers.go:276-281 | rounding a real number, taken to be in the range of binary64, gives exactly the multiple of the binary64 spacing that is nearest to it, the even one on ties |
| `Numbers.SpacingBinade` | server/handlers.go:276-281 | the spacing at a number between 2^e and 2^(e+1) is 2^(e-52), but never less than 2^-1074 |
| `Numbers.AddendIsLostIff` | server/handlers.go:276-281 | adding to a value leaves it unchanged exactly if the addend is less than half the spacing at the sum, or half of it beside an even multiple |
| `Numbers.Round64Inexact` | server/handlers.go:276-281 | one past 2^53, adding 1 is lost |
| `Aggregation.RunStart` | server/handlers.go:254-315 | the newest run of a claim's values: the longest suffix of one kind |
| `License.SameKindIff` | server/handlers.go:261-314 | values are of one kind exactly if they have the same of the eight dynamic types |
| `Aggregation.TrailingRunUnique` | server/handlers.go:254-315 | that suffix is unique |
| `Aggregation.CombinedGrows` | server/handlers.go:261-314 | the switch that merges one more value keeps the closed form: sum modulo 2^64, float sum, ordered union, or the newest value, over the newest run |
| `Aggregation.ConflictIsRule` | server/handlers.go:231-253 | on the entry of the accepted licences, the validation loop rejects exactly the licences that break the documented exclusivity rule |
| `Aggregation.StepIsSummary` | server/handlers.go:206-328 | reading one licence into the entry of the accepted ones gives the entry of the accepted ones including it, or leaves all of it unchanged |
| `Aggregation.FoldIsSummary` | server/handlers.go:192-330 | main result: unless it panics, the loop over all licences yields, for claims, pins, expiry, dn and sin, the closed form over exactly the licences that the recursive exclusivity rule accepts |
| `AggregationRules.FirstPinIsOldest` | docs/kopano-licenses.md:117-123 | a pin is the value of the oldest accepted licence that lists the claim, and exists exactly if one does |
| `AggregationRules.PinsPersist` | server/handlers.go:237-244 | pins never change as more licences are read |
| `AggregationRules.RejectedChangesNothing` | docs/kopano-licenses.md:121-123 | a licence that the rule rejects changes nothing of the product: no claim, pin, expiry or name |
| `AggregationRules.NewestIsPin` | server/handlers.go:237-253 | the newest accepted value of a pinned claim is the pin |
| `AggregationRules.PinnedValueIsKept` | docs/kopano-licenses.md:117-123 | the aggregated value of a pinned claim that is neither a number nor a list is the pin |
| `AggregationRules.PinIsKeptIff` | server/handlers.go:261-314 | for every pinned claim of any kind: the aggregated value is the pin exactly if the older values of the newest run, for integers, add up to a multiple of 2^64; for floats, add up to what is lost beside the pin; for lists, unite to a prefix of the pin that its rest does not repeat; and always for other kinds |
| `AggregationRules.LimitPinIsKeptIff` | docs/kopano-licenses.md:129-158 | a pinned documented limit is kept exactly if the older limits add up to 0 |
| `AggregationRules.PinnedIntegerIsMultiplied` | server/handlers.go:267-271 | an exclusive integer on which all carriers agree is multiplied by their number, modulo 2^64 |
| `AggregationRules.NumericPinDrifts` | server/handlers.go:267-271 | two Go-typed licences, such as claim generation yields, that agree on an exclusive limit of 5 would yield 10 |
| `AggregationRules.LicenseIdsAreIgnored` | server/handlers.go:196-329 | entries that differ in their `lid` alone have the same aggregated product: the documented replacement by `lid` does not happen |
| `AggregationRules.DecodedNeverPins` | server/handlers.go:219-230 | licences decoded from JSON never pin a claim, and exactly those without an exclusive list are accepted |
| `AggregationRules.DocumentedTypesNeverPanic` | docs/kopano-licenses.md:127-158 | decoded licences whose lists hold only strings, numbers, booleans and null never make the handler panic |
| `AggregationRules.UnionMultiplicity` | server/handlers.go:286-298 | in a united list an element occurs as often as in the oldest list that has it |
| `AggregationRules.FirstHolderExists` | server/handlers.go:286-298 | and every element of it is in a list of the run |
| `AggregationRules.UnionElements` | server/handlers.go:286-298 | a united list has exactly the elements of its parts and begins with the oldest part |
| `AggregationRules.NewestWins` | server/handlers.go:255-256 | the aggregated value has the kind of the newest accepted value, and is that value if the kind does not merge |
| `AggregationRules.DistinctNamesMeaning` | server/handlers.go:317-322 | display names and support numbers: exactly the non-empty ones, each once |
| `AggregationRules.DistinctNamesPrefix` | server/utils.go:25-32 | names stand in the order of first appearance |
| `AggregationRules.AggregatedLimitIsExact` | docs/kopano-licenses.md:129-158 | if all accepted values of a claim are documented limits (integers 0..999999) and there are at most 2^53 / 999999, the aggregated limit is their exact sum |
| `AggregationPanics.MergedClashes` | server/handlers.go:287-298 | a merged value panics against the next one exactly if the newest value does |
| `AggregationPanics.StepOutcome` | server/handlers.go:219-305 | for every entry and licence, by dynamic types: it is skipped for an exclusive list of another type than a list of strings; it panics if a pinned claim and its pin are both lists of strings, lists or objects; else it is skipped for another value of a pinned claim; else it panics exactly if two lists meet of which one holds a list or object |
| `AggregationPanics.DecodedListsPanicIff` | server/handlers.go:287-298 | the union of two decoded lists panics exactly if one of them holds a list or an object |
| `AggregationPanics.DecodedPanicsIff` | server/handlers.go:220-305 | decoded licences make the handler panic exactly if a product is a JSON null, or two accepted licences in a row give a claim lists of which one holds a list or object |
| `DocumentedRules.ReplacementIff` | docs/kopano-licenses.md:17-20 | for all decoded licences, the aggregation is that of the entries left by the documented replacement by `lid` exactly if all replaced entries carry an exclusive list, or both aggregations panic |
| `DocumentedRules.SameLidIsAdded` | docs/kopano-licenses.md:17-20 | two decoded entries with one `lid` and limits of 5: 10 instead of 5 |
| `DocumentedRules.NoIdsReplaceNothing` | docs/kopano-licenses.md:17-20 | under the documented rule, entries without a `lid` replace nothing |
| `DocumentedRules.ExclusivityIff` | docs/kopano-licenses.md:117-123 | for decoded licences, the code accepts the same entries as the documented rule exactly if none of them carries an exclusive list of strings |
| `DocumentedRules.DocumentedMeaning` | docs/kopano-licenses.md:117-123 | reading an entry as documented turns a generic exclusive list of strings into the list of the same strings, and changes nothing else |
| `DocumentedRules.DecodedListIsSkipped` | server/handlers.go:220-226 | a decoded licence with an exclusive claim: the documentation activates and pins it, the code activates nothing |
| `Responses.FilterIsRestriction` | server/handlers.go:145-151 | whatever unwanted products do, a filtered request panics exactly if the aggregation of a wanted product does, and else has exactly these; it is the restriction of the unfiltered response where there is one |
| `Responses.NamesAreFiltered` | server/handlers.go:197-201 | the products of a response are the wanted ones among all |
| `Responses.ResponseProducts` | server/handlers.go:192-219 | with a filter the response has exactly the products that the filter lists and some licence has, without one those that some licence has, each as its fold |
| `Responses.LostResponseIff` | server/handlers.go:192-330 | the response is lost exactly if the fold of a product panics that some licence has and the filter, if there is one, lists |
| `Responses.ContributionsMeaning` | server/handlers.go:192-219 | what is folded for a product: its entry, expiry, display name and support number in each licence that has it, in order |
| `ProductsHandler.AppendIfMissingS` | server/utils.go:25-32 | the loop appends exactly if the element is missing |
| `ProductsHandler.Validate` | server/handlers.go:231-249 | in any order of the claims: panic, conflict, or the values that become exclusive, exactly as in the fold |
| `ProductsHandler.Judge` | server/handlers.go:219-253 | the exclusive list and the validation decide as the fold does |
| `ProductsHandler.MergeAll` | server/handlers.go:254-315 | in any order of the claims, the entry's claims show the merge of both maps and keep their plans, and a panic comes exactly if the merge panics |
| `ProductsHandler.PinAll` | server/handlers.go:323-328 | in any order, exactly the new non-null exclusive claims are pinned, and no pin changes |
| `ProductsHandler.Accept` | server/handlers.go:254-328 | an accepted licence updates claims, expiry, names and pins of the entry as one step of the fold |
| `ProductsHandler.ReadLicense` | server/handlers.go:206-328 | one product of one licence is one step of the fold on the mutable entry, rejections included |
| `ProductsHandler.ReadContribution` | server/handlers.go:206-328 | the entry stays the fold over what was read into it |
| `ProductsResponse.Response.AddEntry` | server/handlers.go:209-218 | a missing entry is made, and no other entry changes |
| `ProductsResponse.Response.ReadProduct` | server/handlers.go:196-329 | an unwanted product is skipped; a wanted one changes its own entry only |
| `ProductsResponse.Response.ReadProducts` | server/handlers.go:196-329 | the products of a licence are read in any order with one result |
| `ProductsResponse.ClaimsKopanoProducts` | server/handlers.go:192-330 | main result: for every order of every map the response has exactly the wanted products, each showing its fold, and is lost exactly if one of these folds panics; whatever showed a list before keeps showing it |
| `Slices.StillShows` | server/handlers.go:286-298 | whatever shows a value keeps showing it, as long as arrays are only written as planned |
| `Slices.Heap.ShownIsVisible` | server/handlers.go:286-298 | what the ledger says of a slice is what its array holds |
| `Slices.Heap.Append` | server/handlers.go:295 | Go's append: in place exactly while there is capacity, else in a new array; the ledger is kept |
| `Slices.Heap.Unite` | server/handlers.go:287-298 | the union is written behind the visible part of the older list; panics exactly if an element cannot be a map key, maybe after some appends, and keeps the ledger in both cases |
| `Slices.Heap.MergeClaim` | server/handlers.go:261-314 | the value switch on shared slices is the merge of the fold |
| `Plans.MergeIsPlanned` | server/handlers.go:286-298 | what a merge appends is what the plan of the older list says |
| `Plans.MergeTracked` | server/handlers.go:261-314 | one merge shows the merged value and follows the plan, or panics as the fold does |
| `Interleaving.Interleave` | server/handlers.go:286-298 | any number of list unions on shared arrays, interleaved append by append in any order, as requests run them without a lock: at each point each of them has the list, or the panic, that it would have if it ran alone |
| `Interleaving.TrackedIsReady` | server/handlers.go:286-298 | every union that a request makes on arrays that follow the plans can take part in this |
| `Interleaving.FinishedTracks` | server/handlers.go:286-298 | once it has had all its turns, it panicked exactly if the merge does, and else shows the merged value on an array that follows the plans, whatever ran in between |
| `Requests.HeapOf` | license/license.go:24-34 | decoded licences, whose lists are in arrays of their own, fulfil the plans of the aggregation |
| `Requests.TrackedIsDisplayed` | server/handlers.go:262-298 | as long as the ledger is kept, every licence shows nothing but its own lists |
| `Requests.ShownIsRead` | server/handlers.go:186-191 | what a response shows is what its readers see |
| `Requests.NextRequest` | server/handlers.go:192-330 | one more request answers as `Respond` does, and all earlier responses stay as they are |
| `Requests.Serve` | server/handlers.go:192-330 | main result: over any number of requests on the same licences, each panics exactly if `Respond` does and else shows its value, all responses still show it in the end, and every licence shows nothing but its own lists |
| `Decoding.Decode` | license/license.go:24-34 | for any licences: decoding puts each list into an array of its own, and shows the licences as they are |
| `Decoding.AnswerIsRead` | server/handlers.go:192-330 | what the readers of an answer see is what `Respond` gives |
| `Decoding.ServeDecoded` | server/handlers.go:192-330 | main result, without any assumption: decode any licences and answer any number of requests; in the end each was lost exactly if `Respond` panics, the readers of all others see what it gives, and the licences are as they were |
| `LicenseSet.StableOrderSorts` | licenses.go:250-253 | newest first, ties in reading order |
| `LicenseSet.StableOrderMembers` | licenses.go:250-253 | the sort loses and adds no position |
| `LicenseSet.DeduplicatedMeaning` | licenses.go:255-290 | the active licences are exactly the winners (no file id, or newest with it, on ties the one read first), by ascending issue time |
| `LicenseSet.DeduplicatedUnique` | licenses.go:255-290 | only one list meets that description |
| `LicenseSet.OneActivePerFileId` | docs/kopano-licenses.md:14-16 | for every file id that was read, exactly one licence is active |
| `LicenseSet.DistinctMembers` | docs/kopano-licenses.md:14-16 | with distinct issue times, the active licences are exactly those that are newest with their file id, in ascending order |
| `LicenseSet.ReadingOrderIrrelevant` | licenses.go:250-290 | with distinct issue times, the directory order does not matter |
| `ReadingOrder.OrderFreeIff` | licenses.go:250-290 | all orders of reading have one deduplicated list exactly if of any two different licences with one issue time at least one has a strictly newer one with its file id |
| `LicenseSet.ChangeIsNoticedIff` | licenses.go:262-308 | the hooks fire exactly if the id set changed, except exactly when ids only came in and each new one is on several licences |
| `LicenseSet.SharedIdGoesUnnoticed` | licenses.go:265-269 | two files with one new id: no hook fires |
| `Scan.ReadFile` | licenses.go:95-228 | the body of the scan loop takes a file as the specification says |
| `Scan.TakenOnlyIfVerified` | licenses.go:100-224 | the scanned claims are exactly those of files that are one signed token with one of the four algorithms, verified under a key that the operator trusts for it, valid now up to 86400 seconds, with a subject that is not white space; the id is the licence's own or else the file name, and nothing else changes |
| `Scan.UnknownKeyIdRejected` | licenses.go:122-132 | with a key set present, a file with an unknown key id is rejected, even offline |
| `Scan.CommentedKeyIff` | licenses.go:38-42 | a file is taken as the comment on being offline says exactly if it is not one with an unknown key id, while a key set is present and offline, that would be taken under the key of its certificate chain |
| `Scan.CommentedScanIff` | licenses.go:80-236 | over a whole folder, the scan loses licences against the commented rule exactly if one of the files is such |
| `Scan.TrustedChainIsRejected` | licenses.go:122-132 | such a file and such keys: the comment takes it, the code does not |
| `Scan.TakenIsInterval` | licenses.go:190 | with fixed keys, the times at which a file is taken form an interval |
| `Scan.DatesAgreeIff` | docs/kopano-licenses.md:11-13 | code and documented dates disagree exactly between the two starts of validity, up to the end that belongs to the earlier one, and between the two ends |
| `Scan.ValidityIntervals` | licenses.go:190 | the code's validity is the interval from a day before the later of `nbf` and `iat` to a day after `exp`, which starts no later than the documented one exactly if the licence has no `nbf` or was issued at most a day after it |
| `Scan.DatesDiffer` | licenses.go:190 | a file that expired is still taken, and one that the documentation takes to be valid is not |
| `LicensesLoader.NewIdsAreReportedOnce` | licenses.go:264-287 | `OnActivate` and `OnSkip` together report each id that is not in the history exactly once |
| `LicensesLoader.NewestIsReported` | licenses.go:264-287 | and they report the newest licence with the id |
| `LicensesLoader.SkippedIff` | licenses.go:274-287 | a licence is reported as skipped, not activated, exactly if a newer one has its file id |
| `LicensesLoader.ReadFiles` | licenses.go:80-236 | the scan loop collects the claims of the taken files in directory order |
| `LicensesLoader.LicensesLoader.Record` | licenses.go:263-273 | one licence enters the history and the records of new ids |
| `LicensesLoader.LicensesLoader.Take` | licenses.go:274-287 | one licence is kept or skipped by its file id |
| `LicensesLoader.LicensesLoader.Deduplicate` | licenses.go:257-290 | the loop yields the deduplicated list and its hooks, and records for every id whether it is new and occurs once |
| `LicensesLoader.LicensesLoader.FireRemoved` | licenses.go:293-300 | deleting while ranging, in any order: `OnRemove` exactly once for every known id that the scan lacks, and these leave the history |
| `LicensesLoader.LicensesLoader.FireNew` | licenses.go:301-308 | in any order: `OnNew` exactly once for every id marked as new |
| `LicensesLoader.LicensesLoader.SortAndDeduplicate` | licenses.go:244-311 | the result, the new history and the calls of all four hooks, in terms of the scan and the old history |
| `LicensesLoader.LicensesLoader.ScanFolder` | licenses.go:60-62 | a folder that cannot be read changes nothing; otherwise the above for the claims of the taken files |
| `ChangeDetection.HistoryIsLastScan` | licenses.go:255-308 | over any run, the history holds exactly the ids of the last successful scan |
| `ChangeDetection.ConfiguredCustomer` | server/server.go:443-453 | a configured customer is one claim set with that subject and no product, id or bound in time |
| `ChangeDetection.EarlyReturnKeepsList` | server/server.go:459-461 | returning early after a successful scan of a coherent run leaves the list of that scan in place |
| `ChangeDetection.FailureRetains` | server/server.go:435-461 | a failed scan empties the served list, or with a configured customer keeps that of the last success |
| `ChangeDetection.ServedIsRetained` | server/server.go:384-479 | over every coherent run: after a success the list of that scan is served, after a failure nothing, or with a configured customer the list of the last success |
| `ChangeDetection.TransparentIff` | server/server.go:384-479 | main result: over every coherent run, the served list is that of a loader that publishes after every scan, except exactly after a failed scan with a configured customer and licences in the last success |
| `ChangeDetection.FailureKeepsLicense` | server/server.go:435-461 | a licence stays served when the folder becomes unreadable |
| `ChangeDetection.ServedAfterSuccess` | server/server.go:443-467 | after each successful scan of a coherent run: the configured customer, then the deduplicated licences of that scan |
| `ChangeDetection.DistinctTimesCohere` | server/server.go:384-479 | distinct ids and issue times per scan, and ids that identify licences, make a run coherent |
| `ChangeDetection.TransparentThroughoutIff` | server/server.go:456-461 | for every run, coherent or not: the served list is at every point that of a loader that always publishes, exactly if no scan has another list than the one before with the same head customer, and failed, or has the known ids, or new ones only on several licences |
| `ChangeDetection.StaleExample` | licenses.go:265-269 | two files that share an id, after an empty folder, are not served |
| `HookCounts.HooksOfLoader` | licenses.go:292-308 | the counted calls are those of the loader |
| `HookCounts.HooksConservedIff` | licenses.go:292-308 | per id, announcements minus removals equal its presence at every point of a run exactly if no scan brings it in on several licences at once |
| `HookCounts.PresenceIsInterval` | licenses.go:190 | with fixed files and keys, the times at which an id is present form an interval |
| `HookCounts.LifeOfId` | licenses.go:292-308 | with a clock that does not go back, an id is not yet announced, or announced and present, or announced and removed for good |
| `HookCounts.AnnouncedAtMostOnce` | licenses.go:292-308 | so it is announced at most once and removed at most as often |
| `Loader.HooksMeanChange` | server/server.go:422-429 | `changed` is set exactly if the specification notices a change |
| `Loader.ScannedNameCustomers` | licenses.go:196-205 | every scanned licence names a customer |
| `Loader.Loader.ScanLicenses` | server/server.go:393-441 | without a folder, or with one that cannot be read, nothing is found or changes; otherwise the deduplicated claims of the taken files, the change that the hooks report, and a history with exactly their ids |
| `Loader.Loader.Publish` | server/server.go:455-478 | publishes and remembers the head customer, unless it is not the first run, the head customer is the same and nothing changed |
| `Loader.Loader.F` | server/server.go:384-479 | one call of the closure is one step of the run specification: the history has the ids of the claims it read, or stays if there was no folder to read, and what is served stays or becomes the configured customer followed by the deduplicated claims |
| `Loader.Loader.Reload` | server/server.go:384-479 | over all calls: the served claims are those of a loader that always publishes unless a scan went unnoticed; over coherent scans they are the retained ones, after a call that could read the folder the configured customer followed by the deduplicated claims of that folder |
| `ProtocolSafety.LockStep` | server/server.go:273-306 | the mutex is never held by a writer together with anyone else, and its owner and readers are those the program counters say |
| `ProtocolSafety.InvReachable` | server/server.go:253-550 | every reachable state keeps all invariants: mutex, key sets, update channels, watchers, reload requests, readiness, offline counter |
| `ProtocolSafety.NoKeysLost` | server/server.go:271-313 | outside the refresher's critical section the loader has the current keys, or its first read is still to come, or a trigger is buffered, or it has taken one and not read the keys since, or it was stopped |
| `ProtocolSafety.ChannelsClosedOnce` | server/server.go:471-478 | no update channel, ready channel or callback channel is closed twice |
| `ProtocolSafety.SwapIsAtomic` | server/server.go:465-469 | whoever holds the read side sees the update channel that belongs to the claims |
| `ProtocolSafety.WokenReadsNewer` | server/server.go:348-351 | a watcher woken by channel i reads a version of at least i+1, and newer than all it read before |
| `ProtocolSafety.WaitsOnCurrentChannel` | server/handlers.go:390-405 | a watcher on an open channel waits on the current one, or on one that the loader is about to close |
| `ProtocolSafety.RunsUntilCancelled` | server/server.go:315-320 | the loader stops only after a shutdown was requested, and so does a refresher with mirrors |
| `ProtocolSafety.ReplyMeansReload` | server/handlers.go:61-81 | a reload request answered with 200 saw a complete run of `f` that began after it was accepted |
| `ProtocolSafety.HupNotLost` | server/server.go:538-545 | after a handled SIGHUP, over any steps among which no scan begins, a trigger is buffered or the loader is on its way to that scan |
| `ProtocolSafety.ReadyOncePublished` | server/server.go:471-477 | outside the first publication, the ready channel is closed exactly if claims were published |
| `ProtocolSafety.CanBeStopped` | server/server.go:486-493 | once a shutdown is requested, an idle loader and a sleeping refresher can stop |
| `ProtocolSafety.DeparturesGoUnnoticed` | server/handlers.go:61-81 | a waiting client or watcher can leave at any time, and nothing else changes |
| `ProtocolSafety.OfflineMeansThreeFailures` | server/server.go:283-293 | over any history of outcomes, the API reports offline exactly if none brought a key set or found it unchanged, or each of the last three was cancelled or an error |
| `ProtocolCompletion.AnyOutcomeIsCounted` | server/server.go:271-306 | an update can have any of the four outcomes: new keys are stored and, except for the first time, trigger a scan; the counter goes back to 0 on success, and otherwise up to at most 3 |
| `ProtocolProgress.DoomedForever` | server/server.go:279-281 | refresher and loader that block each other do so forever |
| `ProtocolProgress.WayOut` | server/server.go:384-391 | in any other state, steps of the readers, the refresher and the loader give the loader its lock |
| `ProtocolProgress.NeverIffDoomed` | server/server.go:279-281 | in every reachable state in which `f` waits for a lock, it never gets it exactly if the buffer is full and the refresher owns the mutex with a trigger to send |
| `ProtocolProgress.RoomMeansProgress` | server/server.go:279-281 | if the buffer has room when the refresher has a trigger to send, some continuation gives `f` its lock |
| `ProtocolProgress.DoomedReaders` | server/server.go:279-281 | from a mutual block on, the refresher owns the mutex for good and no reader that is not inside ever gets in |
| `ProtocolProgress.DoomIsReachable` | server/server.go:273-281 | that mutual block is reachable: a SIGHUP while a second key set arrives |
| `ProtocolCompletion.CompletesIff` | server/server.go:384-510 | a run of `f` that is underway can be completed exactly if the state is not stuck |
| `ProtocolCompletion.ServedRequestCompletes` | server/server.go:494-501 | unless the state is stuck, the request being served can be completed, its callback closed, whether or not its client is still there |
| `ProtocolCompletion.RequestCanBeAnswered` | server/handlers.go:61-81 | whenever the loader is idle, steps exist that accept a new reload request, complete a run of `f` and answer it with 200 |
| `ProtocolFairness.WaitStep` | server/server.go:384-391 | while the loader waits for the mutex no step puts it back, and every step of the refresher's critical section or of a reader inside brings it closer |
| `ProtocolFairness.BoundedWait` | server/server.go:384-391 | in every run, no more such steps come before the loader is released than the stages and readers that were left |
| `ProtocolFairness.AwaitedIsReady` | server/server.go:279-281 | with room in the buffer, whoever the loader waits for can go on |
| `ProtocolFairness.ReadyCanAct` | server/server.go:273-306 | fairness asks for nothing impossible: whoever is ready has a step to take |
| `ProtocolFairness.LocksAreAcquired` | server/server.go:384-391 | main result: in every fair infinite run with room in the buffer at each send, and hand-off between the two writers, `f` gets each of its locks |
| `ProtocolFairness.RunCompletes` | server/server.go:480-510 | and every run of `f` completes, with the callback of the request it serves closed |
| `ProtocolFairness.HandsOffFrom` | server/server.go:384-391 | the hand-off holds if a loader that is passed over forever means that from some moment on the mutex is never free |
| `ProtocolRuns.FairRunExists` | server/server.go:480-510 | a run that meets these assumptions and gets to `f` exists |
| `Fetcher.LastAttemptBounds` | jwks.go:98-107 | a call makes at least one and at most max(1, MaxRetries) requests; all but the last failed |
| `Fetcher.BackoffClosedForm` | jwks.go:103-108 | the waits after n attempts add up to 5 n (n + 1) / 2 seconds |
| `Fetcher.CacheIsLatestFetch` | jwks.go:88-97 | over any calls, the stored tag and key set are those of one response, the latest that brought a key set; errors and 304 change neither |
| `Fetcher.StoredIsCurrent` | jwks.go:60-95 | if mirrors follow RFC 7232 and equal tags mean equal content, every successful call leaves the key set that the answering mirror holds |
| `Fetcher.CurrentThroughoutIff` | jwks.go:60-95 | if mirrors follow RFC 7232, and whatever their tags mean, every successful call leaves the key set of the answering mirror exactly if every 304 comes from a mirror that holds the key set of the latest fetch |
| `Fetcher.SharedTagGoesStale` | jwks.go:60-72 | one tag for two key sets: the cache goes stale |
| `Fetcher.JWKSFetcher.Update` | jwks.go:36-110 | the retry loop terminates; request i goes to mirror i while there is one and then to the first, all with the stored tag; result, fields, total wait, and the outcome that the refresher counts: offline exactly without a 304 or a key set |
| `ClaimsGen.GenerateClaims` | license/claims-gen.go:18-117 | the loop fails if a parameter fails on its own, and otherwise, for compatible parameters, yields what every order of the map yields |
| `ClaimsGen.Iterate` | license/claims-gen.go:32-114 | one parameter, with every error and the type assertion that panics |
| `ClaimsGen.ListKeyUnique` | license/claims-gen.go:43-66 | only one key names a given claim as a string list |
| `ClaimsGen.ParseKeyMeaning` | license/claims-gen.go:35-66 | `uid`, `dn` and `sin` stand for themselves, any other key without a dot is an error; the product ends at the first dot, the claim at the first colon after it, and without a colon the type is string |
| `ClaimsGenMeaning.ClaimKeyFailsIff` | license/claims-gen.go:32-114 | exactly when a parameter for a claim fails on its own, by its claim, type and values |
| `ClaimsGenMeaning.OtherKeyFailsIff` | license/claims-gen.go:32-114 | and any other: unless it is `uid`, `dn` or `sin` with one value |
| `ClaimsGen.Commute` | license/claims-gen.go:32-114 | two compatible parameters can be read in either order, failures included |
| `ClaimsGen.OrderIsIrrelevant` | license/claims-gen.go:32-114 | any two map orders both fail or give equal claims, if a parameter fails on its own or all are compatible |
| `ClaimsGen.DifferentPlacesAreCompatible` | license/claims-gen.go:43-66 | in particular if no two keys name one claim |
| `ClaimsGen.LidIsNoClaim` | license/claims-gen.go:72-74 | `lid` never lands among the other claims of a product |
| `ClaimsGenOrder.SharedListShows` | license/claims-gen.go:99-106 | a list and a scalar for one claim: one order succeeds, another panics |
| `ClaimsGenOrder.ScalarsShow` | license/claims-gen.go:77-108 | two scalars with different values for one claim: the order decides |
| `ClaimsGenOrder.OrderIrrelevantIff` | license/claims-gen.go:32-114 | for all parameters: the map order never shows exactly if one fails on its own or all are pairwise compatible |
| `ClaimsGenMeaning.GeneratedMeaning` | license/claims-gen.go:32-114 | compatible parameters succeed exactly if none fails on its own, and the claims then hold what every parameter says, and nothing else |
| `ClaimsGenMeaning.GeneratedClaim` | license/claims-gen.go:62-110 | for every key: the claim holds the list of strings, or the value as an integer, boolean, float or string as the type says, and `lid` the licence id |
| `ClaimsGenMeaning.GeneratedNothingElse` | license/claims-gen.go:43-110 | and there is no product, claim or licence id that no key names, and no claim called `lid` or without a name |
| `ClaimsGenMeaning.GeneratedNames` | license/claims-gen.go:32-42 | `uid`, `dn` and `sin` as given, or a generated file id and empty names |
| `ProductJson.UnmarshalJSON` | license/license.go:24-34 | a decoded product, encoded again, has all other claims of the object, and its `lid` if that was a string, else an empty one |
| `ProductJson.MarshalJSON` | license/license.go:36-43 | in any order, encoding puts it back over a copy |
| `ProductJson.MarshalThenUnmarshal` | license/license.go:24-43 | the round trip restores product and claims, up to JSON values, exactly if no other claim is called `lid` |
| `ProductJson.UnmarshalThenMarshal` | license/license.go:24-43 | the other round trip is the identity exactly if `lid` is a string |
| `ProductJson.DecodedStays` | license/license.go:24-43 | decoded values survive encoding and decoding |
| `ProductJson.GeneratedChanges` | license/license.go:36-43 | a generated list of strings comes back as a generic list of the same strings, an integer up to 2^53 as the same number |
| `ProductJson.ExclusiveListsDoNotSurvive` | server/handlers.go:220-226 | a product with an exclusive list, encoded and decoded, is accepted in no company |
| `EndToEnd.ResponseIsSummary` | server/handlers.go:192-330 | every entry of a response is the closed form over the accepted licences of its product |
| `EndToEnd.CustomerKeepsResponse` | server/server.go:443-453 | the configured customer adds nothing to any product |
| `EndToEnd.ServedProducts` | server/server.go:384-479 | after a successful scan of a coherent run, requests are answered as if aggregated from that scan |
| `EndToEnd.ReadingOrderDoesNotShow` | licenses.go:250-290 | with all ties of issue time resolved, the directory order shows in no response |
| `EndToEnd.ScannedResponse` | server/handlers.go:192-330 | a request on scanned licences panics exactly if a wanted product is null or has clashing lists, and otherwise has no pinned claim |
| `ResponseMeaning.EntryClaims` | server/handlers.go:192-330 | on decoded licences, a product has exactly the claims of the licences that have it without an exclusive list, and no pinned claim |
| `ResponseMeaning.EntryValue` | server/handlers.go:254-315 | each with the kind of value that the newest of them gives it, and if that is a string, boolean, object or null, that value |
| `ResponseMeaning.EntryNames` | server/handlers.go:317-322 | exactly their non-empty display names |
| `ResponseMeaning.EntrySupport` | server/handlers.go:317-322 | exactly their non-empty support numbers |
| `ResponseMeaning.EntryExpiry` | server/handlers.go:316 | exactly their expiry dates |
| `EndToEnd.TiesShow` | licenses.go:250-253 | two licences with one issue time and different editions: reading them in the other order changes the response |

## Left out

- Unsafe scan mode: with a key set and an unknown key id it indexes an empty slice (`licenses.go:133`).
- The load history and all logging: they decide nothing but log lines.
- A nil activation history: `Serve` always passes a map.
- Claims without any registered field: decoding is assumed to yield the embedded claims.
- Signature verification, certificate chains and token parsing: tables of a token; that a chain's validity depends on time is not modelled.
- The products response's `trusted` flag and its JSON encoding: the flag is copied from the configuration.
- Claim values of the kinds int8, int16, int32 and float32: neither decoding nor generation yields them; likewise an empty Go list of strings that is nil.
- Numbers.Round64Iff: does not model rounding to infinity past the largest finite value, NaN, or the sign of zero; binary64 is represented by real numbers.
- Strings that are not valid Unicode: encoding would replace their bytes.
- Number parsing, random ids, e-mail recognition and hashing of the customer: opaque; all generated ids count as equal, and a failing random source is not modelled.
- LicensesLoader.SliceStable: its body is its specification, because the sort is the Go library's; the closure's in-place reordering of its own fresh slice is modelled on values.
- Requests.Serve: models requests one after another; of requests that run at the same time, `Interleaving.Interleave` models the list unions, which are all that write to shared memory, with each append as one step. Go's rules for unsynchronised access are not modelled. The `Heap` object and its ledger are bookkeeping of the model.
- ProtocolFairness.RunCompletes: takes the hand-off between the two writers as an assumption; Go's mutex provides it by its starvation mode, which is not modelled.
- ProtocolProgress.WayOut: says that the lock can be reached, not that it will be; the latter is `ProtocolFairness.LocksAreAcquired`, for fair runs.
- ProtocolCompletion.CompletesIff: leaves the outcome of the scan open, as the protocol does; the scan itself is in `Loader.Loader.F`.
- Real time: timers are steps that may happen at any moment; the 30 second timeouts of requests are departures.
- The claims handlers' reads and the ready message: in the protocol they are watchers that leave after their first read.
- HTTP routing, forms, server sent events, sockets, peer credentials, TLS, file locks, orderly shutdown: input and output.
- The collector and the survey client: duplicate-free collection for an external reporter.
- The commands, scripts and packaging: wrappers.
