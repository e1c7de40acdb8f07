# Cortex station services: a verified model of the error-handling and view-model core

Cortex is a space-station simulation built from several Spring Boot services and a React
dashboard. The services call one another over HTTP. This project models the parts of that
system whose behaviour is small and sequential enough to state and prove:

- **Downstream error detail.** Every service client carries the same private
  `extractErrorDetail`. It finds the first `"message" : "<text>"` field in an HTTP error body.
  A `[Chaos Engineering]` marker inside that text rewrites it to the marker plus the trimmed
  remainder. Without a message field, the body itself is returned, cut to 200 characters plus
  `...`. The model is one function over `seq<char>`. The two regular expressions are
  hand-coded as scanners, each next to a declarative description of a match. Lemmas prove that
  each scanner finds exactly the leftmost match and the group Java's backtracking engine
  captures.
- **The five client methods.** Power allocation and release, cargo unloading, crew arrival,
  life-support capacity and the available-crew query. Each maps an abstract HTTP outcome to a
  return value or to the typed exception it throws.
- **The crew service's retry interceptor.** A `while` loop over attempts, proved against a
  specification: how many calls are made, which waits are planned, and which exception escapes.
- **The dashboard's `ErrorAlert`.** The user-error/system-error rule with what it decides, and
  the `copied` flag of the copy-trace-ID button.
- **The `DockResult` and `SelfTestResult` factories.**
- **The Crew and Inventory pages.** Their derived lists and counters, and the handler state
  machines of their dialogs.

Java `null` is `Option`'s `None`. An HTTP call, a clipboard write or an API promise appears as
an outcome value passed in as a parameter. Module `Wrappers` holds `Option` and `Result`.
`JavaText` holds the Java string operations used: `\s`, `.`, `trim`, `contains`, and
concatenation of a `Long`. `Seqs` holds the list operations the pages use: `filter`, `length`
and `new Set`.

## Model

Source paths are relative to the repository root. Every `extractErrorDetail` copy is identical
to the one in `PowerClient.java` (InventoryClient.java:58-77 and CrewClient.java:68-87 in the
docking service, LifeSupportClient.java:60-79, and the inventory service's CrewClient.java:57-76).
`ErrorDetail.ExtractErrorDetail` models all five.

| member | source | states |
|---|---|---|
| JavaText.Trim | services/docking-service/src/main/java/com/nexus/docking/client/PowerClient.java:96 | `String.trim`: the result is a contiguous slice of the input; everything cut off on either side is ≤ U+0020; a non-empty result starts and ends above U+0020 |
| JavaText.ContainsIsOccurrence | services/crew-service/src/main/java/com/nexus/crew/config/RetryClientHttpRequestInterceptor.java:113-115 | `contains` holds exactly when the substring occurs at some index |
| JavaText.ParseNatToString | services/docking-service/src/main/java/com/nexus/docking/client/PowerClient.java:36 | reading back the decimal digits of a printed number gives the number |
| JavaText.LongToStringInjective | services/docking-service/src/main/java/com/nexus/docking/client/PowerClient.java:36 | two `Long`s, null included, that print the same are equal |
| Seqs.Filter | cortex/frontend/src/pages/Crew.tsx:76 | `Array.filter`: no longer than the input; every kept element satisfies the test; an element is kept exactly when it is in the input and satisfies the test |
| Seqs.FilterAppend | cortex/frontend/src/pages/Crew.tsx:76 | filtering a concatenation filters each part and keeps their order |
| Seqs.FilterMultiplicity | cortex/frontend/src/pages/Crew.tsx:76 | each kept element keeps all its occurrences; each dropped one has none |
| Seqs.Count | cortex/frontend/src/pages/Inventory.tsx:109 | the number of elements that pass the test, counted one by one from the front, equals `filter(...).length`. It is at most the input length, and zero exactly when no element passes |
| Seqs.CountAppend | cortex/frontend/src/pages/Inventory.tsx:109 | the count over a concatenation is the sum of the counts of its parts |
| Seqs.Distinct | cortex/frontend/src/pages/Inventory.tsx:104 | `[...new Set(xs)]`: same members as the input, none repeated |
| Seqs.DistinctFirstAppearance | cortex/frontend/src/pages/Inventory.tsx:104 | the distinct values come in the order of their first appearance |
| ErrorDetail.MessageFieldAt | services/docking-service/src/main/java/com/nexus/docking/client/PowerClient.java:21 | the field scanner at one position captures a non-empty text without a double quote |
| ErrorDetail.MessageFieldAtIsMatch | services/docking-service/src/main/java/com/nexus/docking/client/PowerClient.java:21 | the scanner succeeds at a position exactly when the pattern `"message"\s*:\s*"([^"]+)"` matches there; it captures the pattern's group, which is unique |
| ErrorDetail.FindMessageField | services/docking-service/src/main/java/com/nexus/docking/client/PowerClient.java:90-92 | the search returns a non-empty text without a double quote |
| ErrorDetail.FindMessageFieldIsLeftmost | services/docking-service/src/main/java/com/nexus/docking/client/PowerClient.java:90-92 | `find()` succeeds exactly when some position matches; it returns the group of the leftmost match |
| ErrorDetail.ChaosGroupAtIsMatch | services/docking-service/src/main/java/com/nexus/docking/client/PowerClient.java:23 | the chaos scanner succeeds at a position exactly when `\[Chaos Engineering\]\s*(.+)` matches there; greedy `\s*` gives back blanks until `.+` can start, and the group runs to the end of the line |
| ErrorDetail.FindChaosGroupIsLeftmost | services/docking-service/src/main/java/com/nexus/docking/client/PowerClient.java:94-96 | the chaos search succeeds exactly when the pattern matches somewhere; it returns the group of the leftmost marker at which it matches |
| ErrorDetail.Truncate | services/docking-service/src/main/java/com/nexus/docking/client/PowerClient.java:102 | a body of at most 200 characters is unchanged; a longer one becomes its first 200 characters followed by "...", 203 in all |
| ErrorDetail.ExtractErrorDetail | services/docking-service/src/main/java/com/nexus/docking/client/PowerClient.java:84-103 | the detail is never empty; a null or empty body gives exactly "Unknown error" |
| ErrorDetail.DetailWithoutMessageField | services/docking-service/src/main/java/com/nexus/docking/client/PowerClient.java:101-102 | when no position matches the field pattern, the body is returned whole up to 200 characters, and otherwise as its first 200 characters plus "..." |
| ErrorDetail.DetailIsFirstMessageField | services/docking-service/src/main/java/com/nexus/docking/client/PowerClient.java:90-98 | when the first match's text has no chaos match, the detail is that text, which is non-empty and has no double quote |
| ErrorDetail.DetailOfChaosMessage | services/docking-service/src/main/java/com/nexus/docking/client/PowerClient.java:94-97 | when the first match's text has a chaos match, the detail is "[Chaos Engineering] " plus the trimmed group of the leftmost matching marker; text before the marker is dropped |
| ErrorDetail.ChaosMarkerWithBlankRemainder | services/docking-service/src/main/java/com/nexus/docking/client/PowerClient.java:94-97 | a marker followed only by blanks yields "[Chaos Engineering] " with nothing after it: `.+` takes back the last blank, and trimming removes it |
| ErrorDetail.ChaosMarkerDropsLeadingText | services/docking-service/src/main/java/com/nexus/docking/client/PowerClient.java:94-97 | the message `Bay 3: [Chaos Engineering] Overload ` yields "[Chaos Engineering] Overload" |
| Downstream.RaisedFor | services/docking-service/src/main/java/com/nexus/docking/client/PowerClient.java:52-58 | a throwing client raises nothing exactly when the call returns. Any exception names the client's service. After an HTTP error it carries the extracted detail, which is non-empty and is "Unknown error" for a missing body. After any other failure it carries the original message, null included |
| Downstream.FailureText | services/docking-service/src/main/java/com/nexus/docking/client/CrewClient.java:51-60 | the failure text is the extracted detail after an HTTP error, and the original message otherwise, with "null" for a null message |
| DockingPowerClient.SystemName | services/docking-service/src/main/java/com/nexus/docking/client/PowerClient.java:36 | a bay's system name is "docking_bay_" followed by a non-empty rendering of its id |
| DockingPowerClient.SystemNameInjective | services/docking-service/src/main/java/com/nexus/docking/client/PowerClient.java:36 | two bays share a system name exactly when they have the same id (null included) |
| DockingPowerClient.AllocationRequestFor | services/docking-service/src/main/java/com/nexus/docking/client/PowerClient.java:36-46 | allocation names the bay's system, asks for priority 4 and passes the requested kW through |
| DockingPowerClient.DeallocationRequestFor | services/docking-service/src/main/java/com/nexus/docking/client/PowerClient.java:62-69 | deallocation names the bay's system |
| DockingPowerClient.DeallocationMatchesAllocation | services/docking-service/src/main/java/com/nexus/docking/client/PowerClient.java:36-69 | deallocating a bay names exactly the system that its allocation named, and no other bay's |
| DockingPowerClient.AllocatePowerForBay | services/docking-service/src/main/java/com/nexus/docking/client/PowerClient.java:35-60 | a returned call yields its response unchanged, null included. Otherwise the exception names "power-service" and carries either `extractErrorDetail` of the response body (HTTP error; never empty) or the original message (any other failure) |
| DockingPowerClient.DeallocatePowerForBay | services/docking-service/src/main/java/com/nexus/docking/client/PowerClient.java:62-82 | no exception escapes, whatever the outcome |
| DockingInventoryClient.UnloadCargoForShip | services/docking-service/src/main/java/com/nexus/docking/client/InventoryClient.java:36-56 | a returned null body gives the empty list and a list is returned unchanged. Failures raise an exception naming "inventory-service". It carries `extractErrorDetail` of the response body after an HTTP error, and otherwise the original message |
| DockingCrewClient.RegisterArrival | services/docking-service/src/main/java/com/nexus/docking/client/CrewClient.java:35-61 | success exactly when the call returns: "Crew registered successfully" with every crew member registered. Otherwise no exception: nobody registered, and a message of "Failed to register crew: " followed by the failure text |
| DockingCrewClient.ArrivalMessagesDistinct | services/docking-service/src/main/java/com/nexus/docking/client/CrewClient.java:50-60 | the message alone tells success from failure; after an HTTP error the text after the prefix is non-empty |
| DockingCrewClient.ArrivalWithoutErrorBody | services/docking-service/src/main/java/com/nexus/docking/client/CrewClient.java:51-55 | an HTTP error with a null or empty body reports "Failed to register crew: Unknown error" |
| CrewLifeSupportClient.AdjustCapacity | services/crew-service/src/main/java/com/nexus/crew/client/LifeSupportClient.java:35-58 | returns normally exactly when the call returns. Otherwise it throws an exception naming "life-support-service". It carries `extractErrorDetail` of the response body after an HTTP error, and otherwise the original message |
| InventoryCrewClient.GetAvailableCrew | services/inventory-service/src/main/java/com/nexus/inventory/client/CrewClient.java:40-55 | a returned body, null included, is passed on unchanged. Failures raise an exception naming "crew-service". It carries `extractErrorDetail` of the response body after an HTTP error, and otherwise the original message |
| InventoryCrewClient.NullBodyDiffersFromInventoryClient | services/inventory-service/src/main/java/com/nexus/inventory/client/CrewClient.java:46 | on a null body this client yields null where the cargo client yields the empty list; on a list both return it, and on failure both carry the same message |
| RetryInterceptor.IsRetryableException | services/crew-service/src/main/java/com/nexus/crew/config/RetryClientHttpRequestInterceptor.java:109-117 | retryable exactly when the cause is a `ConnectException` or the non-null message contains "Connection refused", "Connection reset" or "Connection timed out" at some index |
| RetryInterceptor.RetryClientHttpRequestInterceptor.MaxAttempts | services/crew-service/src/main/java/com/nexus/crew/config/RetryClientHttpRequestInterceptor.java:46 | the loop runs `maxRetries + 1` times at most, and not at all for a negative `maxRetries` |
| RetryInterceptor.RetryClientHttpRequestInterceptor.DelayAt | services/crew-service/src/main/java/com/nexus/crew/config/RetryClientHttpRequestInterceptor.java:69 | every delay after the initial one is within `maxDelayMs` |
| RetryInterceptor.RetryClientHttpRequestInterceptor.Backoff | services/crew-service/src/main/java/com/nexus/crew/config/RetryClientHttpRequestInterceptor.java:59-69 | the `n` planned waits are the delays after 0, 1, …, n−1 retried failures |
| RetryInterceptor.RetryClientHttpRequestInterceptor.Intercept | services/crew-service/src/main/java/com/nexus/crew/config/RetryClientHttpRequestInterceptor.java:42-107 | at most `maxRetries + 1` calls. Every call but the last ended in a retried failure, so the first response is returned at once. A non-retryable failure escapes at once. One wait follows each retried failure except a final one. When retries run out, a connection `IOException` is rethrown and anything else is wrapped as "Request failed after N attempts" with N = maxRetries + 1; with no attempt at all the message says 0 |
| RetryInterceptor.DefaultBackoff | services/crew-service/src/main/java/com/nexus/crew/config/RetryClientHttpRequestInterceptor.java:27-29 | the default interceptor makes up to six calls and waits 1000, 2000, 4000, 8000 and 16000 ms between them |
| RetryInterceptor.DelayClosedForm | services/crew-service/src/main/java/com/nexus/crew/config/RetryClientHttpRequestInterceptor.java:69 | after k ≥ 1 retried failures the delay is min(initial × multiplier^k, max); the initial delay itself is never capped |
| RetryInterceptor.WaitsNondecreasing | services/crew-service/src/main/java/com/nexus/crew/config/RetryClientHttpRequestInterceptor.java:69 | with a multiplier of at least 1 and an initial delay within the cap, the waits never shrink |
| RetryInterceptor.DelayMonotone | services/crew-service/src/main/java/com/nexus/crew/config/RetryClientHttpRequestInterceptor.java:92 | under the same conditions the delay only grows with the number of failures and stays within the cap |
| Alerts.Render | services/cortex/frontend/src/components/ui/ErrorAlert.tsx:38-95 | the message is always shown. Amber exactly for a status in [400, 500), and the AlertCircle icon exactly with amber. The trace row appears exactly for a red (system) error with a non-empty trace ID, and its button shows the check mark exactly while `copied`. A dismiss button appears exactly when `onDismiss` is given |
| Alerts.ConflictIsUserError | services/cortex/frontend/src/components/ui/ErrorAlert.tsx:20-21 | a 409 is a user error, amber and without a trace row |
| Alerts.UnavailableIsSystemError | services/cortex/frontend/src/components/ui/ErrorAlert.tsx:20-21 | a 503, a status of 0 and a missing status are system errors, red and showing the trace ID |
| Alerts.ErrorAlert.constructor | services/cortex/frontend/src/components/ui/ErrorAlert.tsx:17 | `copied` starts false with no reset pending |
| Alerts.ErrorAlert.HandleCopyTraceId | services/cortex/frontend/src/components/ui/ErrorAlert.tsx:23-34 | with a trace ID and a successful write, `copied` becomes true and one more reset is pending. A failed write or a missing trace ID changes nothing. The invariant "a reset is pending while `copied`" is kept |
| Alerts.ErrorAlert.ResetTimerFires | services/cortex/frontend/src/components/ui/ErrorAlert.tsx:28 | the 2000 ms callback clears `copied`; the invariant is kept |
| Alerts.ErrorAlert.ClickDismiss | services/cortex/frontend/src/components/ui/ErrorAlert.tsx:87-95 | the dismiss button, which exists only with `onDismiss`, invokes it once |
| DockResults.DockSuccess | services/docking-service/src/main/java/com/nexus/docking/dto/DockResult.java:11-13 | success with the given bay, ship and message; no downstream service or inner error |
| DockResults.DockFailure | services/docking-service/src/main/java/com/nexus/docking/dto/DockResult.java:15-17 | failure with the given ship and message; no bay, downstream service or inner error |
| DockResults.DownstreamFailure | services/docking-service/src/main/java/com/nexus/docking/dto/DockResult.java:19-21 | failure with no bay; carries the given ship, message, service and inner error |
| DockResults.DownstreamErrorClassification | services/docking-service/src/main/java/com/nexus/docking/dto/DockResult.java:11-25 | for any factory-built result: a downstream error is a failure without a bay; a success is never a downstream error and has no inner error; a bay only appears on a success |
| DockResults.FactoryDownstreamError | services/docking-service/src/main/java/com/nexus/docking/dto/DockResult.java:23-25 | `isDownstreamError` is false for `success` and `failure`, and for `downstreamFailure` holds exactly when the service is non-null |
| SelfTestResults.SelfTestSuccess | services/life-support-service/src/main/java/com/nexus/lifesupport/dto/SelfTestResult.java:21-26 | passed, status "PASSED"; section, subsystems, duration and timestamp passed through |
| SelfTestResults.SelfTestFailure | services/life-support-service/src/main/java/com/nexus/lifesupport/dto/SelfTestResult.java:28-33 | not passed, status "FAILED"; section, subsystems, duration and timestamp passed through |
| SelfTestResults.PassedMatchesStatus | services/life-support-service/src/main/java/com/nexus/lifesupport/dto/SelfTestResult.java:21-33 | for factory-built results, passed exactly when the status is "PASSED", and the status is "PASSED" or "FAILED" |
| SelfTestResults.FactoriesDifferOnlyInVerdict | services/life-support-service/src/main/java/com/nexus/lifesupport/dto/SelfTestResult.java:21-33 | on the same inputs the two factories differ only in the flag and the status text |
| ApiCalls.ErrorText | cortex/frontend/src/pages/Crew.tsx:33 | an `Error`'s message, or the handler's fallback text for anything else thrown |
| CrewPage.FilteredCrew | cortex/frontend/src/pages/Crew.tsx:75-77 | the whole roster when no section is chosen (0 counts as none). Otherwise exactly the members of the chosen section, each as often as in the roster |
| CrewPage.FilteredCrewKeepsOrder | cortex/frontend/src/pages/Crew.tsx:75-77 | filtering keeps roster order: an earlier stretch of the roster is listed before a later one |
| CrewPage.AvailableSectionsForRelocate | cortex/frontend/src/pages/Crew.tsx:80-84 | empty with no member being relocated. Otherwise exactly the sections other than the member's own that are below capacity, each as often as listed |
| CrewPage.AvailableSectionsKeepOrder | cortex/frontend/src/pages/Crew.tsx:80-84 | the destinations keep the order of the section list: an earlier stretch of the list is offered before a later one |
| CrewPage.StatusCount | cortex/frontend/src/pages/Crew.tsx:180-200 | a tile's count is at most the roster size, and zero exactly when nobody has that status |
| CrewPage.StatusCountsCoverRoster | cortex/frontend/src/pages/Crew.tsx:180-200 | the four status tiles add up to the roster size |
| CrewPage.StatusCountAppend | cortex/frontend/src/pages/Crew.tsx:180-200 | the tiles of a combined roster are the sums of the tiles of its parts |
| CrewPage.CrewPageState.constructor | cortex/frontend/src/pages/Crew.tsx:6-16 | empty lists, loading, no error, no selection, dialog closed |
| CrewPage.CrewPageState.LoadData | cortex/frontend/src/pages/Crew.tsx:22-37 | loading ends false. Success replaces roster and sections and clears the error. Failure keeps the old lists and sets the error text |
| CrewPage.CrewPageState.SelectSection | cortex/frontend/src/pages/Crew.tsx:105-117 | the section buttons set the selection |
| CrewPage.CrewPageState.OpenRelocateModal | cortex/frontend/src/pages/Crew.tsx:56-60 | opens the dialog for the member and resets target and error |
| CrewPage.CrewPageState.ClickRelocate | cortex/frontend/src/pages/Crew.tsx:155-157 | a member in transit cannot be opened for relocation; anyone else opens the dialog |
| CrewPage.CrewPageState.ChooseTarget | cortex/frontend/src/pages/Crew.tsx:234-237 | choosing an offered section sets the target; the state invariant is kept |
| CrewPage.CrewPageState.CloseRelocateModal | cortex/frontend/src/pages/Crew.tsx:62-66 | closes the dialog and resets target and error |
| CrewPage.CrewPageState.HandleRelocate | cortex/frontend/src/pages/Crew.tsx:39-54 | nothing is sent without a member and a truthy target. Otherwise the member's id and target are sent. Success closes the dialog and reloads; failure keeps it open with the error text. Loading ends false and the invariant is kept |
| InventoryPage.Categories | cortex/frontend/src/pages/Inventory.tsx:104 | exactly the categories that occur among the supplies, none repeated |
| InventoryPage.CategoriesInFirstAppearanceOrder | cortex/frontend/src/pages/Inventory.tsx:104 | categories come in order of first appearance in the supply list |
| InventoryPage.FilteredSupplies | cortex/frontend/src/pages/Inventory.tsx:105-107 | every supply when no category is chosen (the empty string counts as none). Otherwise exactly the supplies of that category, each as often as listed |
| InventoryPage.ChosenCategoryIsNonEmpty | cortex/frontend/src/pages/Inventory.tsx:153-161 | choosing any category button, the empty name included, never leaves the table empty |
| InventoryPage.LowStockCount | cortex/frontend/src/pages/Inventory.tsx:109 | at most the number of supplies, and zero exactly when none is flagged low |
| InventoryPage.LowStockCountCons | cortex/frontend/src/pages/Inventory.tsx:109 | the badge is the number of flagged supplies: the first supply adds one exactly when it is flagged |
| InventoryPage.LowStockCountAppend | cortex/frontend/src/pages/Inventory.tsx:109 | the badge of a combined table is the sum of the badges of its parts |
| InventoryPage.PendingManifests | cortex/frontend/src/pages/Inventory.tsx:229-234 | exactly the manifests with status PENDING, each as often as listed |
| InventoryPage.PendingManifestsKeepOrder | cortex/frontend/src/pages/Inventory.tsx:229-234 | the pending list keeps the manifests' order: an earlier stretch is shown before a later one |
| InventoryPage.ConsumeDefault | cortex/frontend/src/pages/Inventory.tsx:96 | the proposed quantity is min(10, stock): at most both, and equal to one of them |
| InventoryPage.ResupplyDefault | cortex/frontend/src/pages/Inventory.tsx:101 | the proposed resupply is twice the minimum threshold |
| InventoryPage.DefaultConsumeWarning | cortex/frontend/src/pages/Inventory.tsx:348 | at the proposed quantity the warning shows for a stock of at most 10 exactly when the threshold is positive, and for a larger stock exactly when stock − 10 is below the threshold |
| InventoryPage.WarningMonotone | cortex/frontend/src/pages/Inventory.tsx:348 | if the warning shows for a quantity, it shows for every larger one |
| InventoryPage.InventoryPageState.constructor | cortex/frontend/src/pages/Inventory.tsx:6-24 | empty lists, loading, no error or filter, dialogs closed, quantities 1 and 100 |
| InventoryPage.InventoryPageState.LoadData | cortex/frontend/src/pages/Inventory.tsx:30-47 | loading ends false. Success replaces all three lists and clears the error. Failure keeps them and sets the error text |
| InventoryPage.InventoryPageState.SelectCategory | cortex/frontend/src/pages/Inventory.tsx:146-156 | the category buttons set the filter |
| InventoryPage.InventoryPageState.OpenConsumeModal | cortex/frontend/src/pages/Inventory.tsx:94-97 | reachable only for a supply with stock; opens the use dialog with min(10, stock) |
| InventoryPage.InventoryPageState.OpenResupplyModal | cortex/frontend/src/pages/Inventory.tsx:99-102 | opens the resupply dialog with twice the threshold |
| InventoryPage.InventoryPageState.SetConsumeQuantity | cortex/frontend/src/pages/Inventory.tsx:338 | the use slider sets the quantity |
| InventoryPage.InventoryPageState.SetResupplyQuantity | cortex/frontend/src/pages/Inventory.tsx:407 | the resupply slider sets the quantity |
| InventoryPage.InventoryPageState.CancelConsume | cortex/frontend/src/pages/Inventory.tsx:369 | Cancel closes the use dialog |
| InventoryPage.InventoryPageState.CancelResupply | cortex/frontend/src/pages/Inventory.tsx:430 | Cancel closes the resupply dialog |
| InventoryPage.InventoryPageState.HandleUnload | cortex/frontend/src/pages/Inventory.tsx:49-60 | the unload request is sent. Success reloads: all three lists come from the reload, or stay as they were with the load error if the reload fails. A failed unload keeps all three lists and sets the error text. No unload is marked in flight afterwards |
| InventoryPage.InventoryPageState.HandleConsume | cortex/frontend/src/pages/Inventory.tsx:62-76 | no-op without a chosen supply. Otherwise the supply and quantity are sent. Success closes the dialog and reloads: all three lists come from the reload, or stay as they were with the load error. Failure keeps the dialog open and all three lists, and sets the page error. Only the lists, the loading flags, the error and the use dialog can change |
| InventoryPage.InventoryPageState.HandleResupply | cortex/frontend/src/pages/Inventory.tsx:78-92 | no-op without a chosen supply. Otherwise the supply and quantity are sent. Success closes the dialog and reloads: all three lists come from the reload, or stay as they were with the load error. Failure keeps the dialog open and all three lists, and sets the page error. Only the lists, the loading flags, the error and the resupply dialog can change |

## Left out

- HTTP itself (RestClient builders, URLs, status codes, response parsing) and all logging: each call's result is an input outcome. The JSON payload values a client sends are modelled for the power client only. The arrival and capacity requests pass their arguments through unchanged.
- A `NullPointerException` that `Map.of` raises for a null argument is not derived from the arguments. It enters the model as one of the "any other failure" outcomes, which the clients map like any other exception.
- The four typed exception classes are one `ServiceException` value told apart by its service name; Java's class hierarchy is not modelled.
- `registerDeparture` only writes a log line, so there is nothing to model.
- `extractErrorDetail` counts characters, where Java's `length()` and `substring` count UTF-16 code units; a body with characters outside the Basic Multilingual Plane can be cut at a different place.
- RetryInterceptor.RetryClientHttpRequestInterceptor.DelayAt: the multiplier is a natural number and delays are non-negative whole milliseconds. `(long) (delay * multiplier)` over `double` and `long` overflow are not modelled.
- RetryInterceptor.RetryClientHttpRequestInterceptor.Intercept: `Thread.sleep` is recorded as a planned wait. The interrupted-sleep path ("Retry interrupted") is not modelled. Neither is an `int` overflow of `attempts` when `maxRetries` is `Integer.MAX_VALUE`.
- The request, its body and the `ClientHttpRequestExecution` are abstracted into the sequence of attempt results.
- RestClientConfig.java (timeouts, interceptor registration) is Spring wiring with no logic of its own and is not part of this model.
- DockingBayRepository.java is not part of this model: its queries and locking come from Spring Data and the database.
- locustfile.py is not part of this model: it generates load with random choices and HTTP calls.
- Power.tsx and LifeSupport.tsx are not part of this model: their derived values are floating-point, and the rest is fetch-and-reload glue.
- Rendering is reduced to what the rules decide: markup, Tailwind classes and colour strings (only amber versus red), icons other than AlertCircle/AlertTriangle and the copy/check glyph, and date formatting.
- `navigator.clipboard` and `setTimeout` are events with their results passed in. A pending reset is never cancelled when the alert unmounts: the component schedules the reset without any cleanup on unmount, and the model follows the component.
- Asynchronous interleaving is not modelled. Each handler runs to completion as one step, `Promise.all` is one combined result, and the model assumes one request at a time: no event arrives while a request is in flight. `Valid()` records that assumption.
- Overlapping requests, which the source allows, are left out by this assumption. On the Inventory page, the Unload button is disabled only for the manifest being unloaded (Inventory.tsx:247). A second unload can start while the first is pending, and the first one's `finally` then clears `unloadingManifest` early. This affects `HandleUnload`.
- Overlapping requests, continued: Refresh (Inventory.tsx:311), the category buttons and Use/Resupply stay enabled during an unload. This affects `LoadData`, `SelectCategory`, `OpenConsumeModal` and `OpenResupplyModal` racing `HandleUnload`.
- Overlapping requests, continued: on the Crew page, the destination buttons (Crew.tsx:237) stay enabled while a relocation is pending. This affects `ChooseTarget` racing `HandleRelocate`.
- `parseInt` of a slider value producing `NaN`, and non-integer HTTP statuses, are not modelled.
- `SelfTestResult`'s `Instant.now()` is a parameter.
