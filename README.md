# Go-kart rental counter — a verified model

The system is a browser page for renting go-karts by the half hour or the hour.

- A catalog of categories lists its karts by name. A name such as `"Rookie ×4"` stands for four numbered karts.
- Each kart runs through `available → rented → pending_return → overdue → available`.
- Each rental is billed, and each finished session is appended to a history kept in local storage.
- A second page reports the history: counts per category for the last week, month and year, and the latest 50 sessions, newest first.
- An earlier variant of the rental page has a fixed fleet of 105 numbered karts. Its states are `available / rented / overtime`, and each kart runs a countdown or a stopwatch interval.

The model is in seven modules, one per file:

| file | module | models |
|---|---|---|
| `js_basics.dfy` | `JsBasics` | JavaScript truthiness, `Math.round`/`Math.ceil`, `String(n)`, `padStart(2, '0')`, and reading decimal fields back |
| `catalog.dfy` | `Catalog` | the catalog records, the slug of an id, the `"name ×N"` marker, and `initializeKartData` as nested loops |
| `rental.dfy` | `Rental` | saved state and its reconciliation with the catalog, the per-kart transitions and their invariant, billing, the history entry, `formatTime` |
| `engine.dfy` | `KartApp` | the page of `script.js` as a class: loadState, saveState, startRental, tick, handleReturnConfirmation, showElapsedTimeAndReset, logRentalToHistory, resetKart |
| `history.dfy` | `History` | the history page of `history_script.js`: loading, statistics, ordering, the detailed log, clear-all |
| `fleet.dfy` | `Fleet` | the fleet of `app.js` on values: the id layout, both time formats, an explicit interval table, and every handler as a step function with its invariant |
| `app.dfy` | `FleetApp` | the same page as a class whose methods update `kartStatus` and the interval table in place |

How the model fits the code:

- Times and durations are in integer milliseconds, so the half-minute test duration is 30000.
- `Date.now()` and the moment a timer fires are a parameter `now`.
- localStorage is a `Slot`: absent (covering `null` and the empty string), stored, or holding text that `JSON.parse` rejects.
- The browser's interval table is explicit state. `setInterval` hands out the next handle. `clearInterval` removes one; on `null` it does nothing. `Fire(h, now)` runs the callback registered under `h`.
- JavaScript `null` in arithmetic and comparisons is written out as 0 (`NumOf`); a falsy optional number is `!Truthy`.

## Model

| member | source | states |
|---|---|---|
| JsBasics.RoundDiv | app.js:148 | `Math.round(n / d)` for d > 0: the nearest integer, halves rounding up (2dr ≤ 2n+d < 2d(r+1)), for negative n too |
| JsBasics.CeilDiv | script.js:421 | `Math.ceil(n / d)`: the least integer r with n ≤ r·d |
| JsBasics.Max | script.js:266 | `Math.max`: an upper bound of both that is one of them |
| JsBasics.Min | app.js:274 | `Math.min`: a lower bound of both that is one of them |
| JsBasics.NatToString | script.js:424 | `String(n)` of a natural number is a non-empty digit string without a leading zero |
| JsBasics.NatToStringValue | script.js:424 | reading the decimal text of n back gives n |
| JsBasics.NatToStringInjective | script.js:95 | distinct numbers have distinct decimal texts, so numbered ids differ |
| JsBasics.PadStart2 | script.js:424 | `padStart(2, '0')`: width max(2, length), the original text at the end, zeros in front |
| JsBasics.PaddedValue | script.js:424 | a padded number text is still all digits, of width at least 2, and reads back as the number |
| JsBasics.PaddedWidth | app.js:27 | a padded number below 100 is exactly two characters |
| JsBasics.MinutesReadBack | script.js:424 | joining two padded fields with `:` leaves each field readable at its place |
| Catalog.FreshKart | script.js:96-108 | a catalog record is available with every session field null and carries its category's name and prices |
| Catalog.TrimStart | script.js:92 | `trim()` removes exactly the leading run of JavaScript white space |
| Catalog.TrimEnd | script.js:92 | `trim()` removes exactly the trailing run of JavaScript white space |
| Catalog.HyphenateNoSpace | script.js:95 | `replace(/\s+/g, '-')` leaves no white space in the text |
| Catalog.HyphenateKeeps | script.js:95 | a text without white space is left as it is |
| Catalog.HyphenateAppend | script.js:95 | a text splits into two parts that are hyphenated separately, wherever the first part does not end in white space |
| Catalog.HyphenateRun | script.js:95 | a maximal run of white space becomes exactly one hyphen, and the text on either side of it is hyphenated on its own |
| Catalog.Trim | script.js:92 | `trim()` leaves no white space at either end; a text without white space is kept whole, and one that is all white space becomes empty |
| Catalog.ToLower | script.js:112 | `toLowerCase()` keeps the length, maps each upper-case ASCII letter to its lower-case letter and keeps every other character |
| Catalog.Slug | script.js:112 | the id part `replace(/\s+/g, '-').toLowerCase()` has no white space and no upper-case ASCII letter |
| Catalog.TrailingDigits | script.js:90 | the length of the digit run that ends the ident, with a non-digit before it |
| Catalog.ParseMultiplicity | script.js:90-93 | a parsed marker is a match of `/^(.*?) ×(\d+)$/` whose groups are the trimmed name and the digits' value; when it is None the pattern matches nowhere |
| Catalog.ParseMultiplicityMatches | script.js:90-93 | the ident has a `"name ×N"` marker exactly when the regular expression `^(.*?) ×(\d+)$` matches somewhere; a match yields the trimmed name and the value of the digits |
| Catalog.MatchParses | script.js:90-93 | any position where the pattern matches gives exactly the parsed name and count |
| Catalog.ParseMatches | script.js:90 | a parsed marker is a match of the pattern at the start of the final digit run |
| Catalog.InitializeKartData | script.js:86-130 | the nested loops build exactly the catalog map: every expanded kart is written in order and later ids overwrite earlier ones |
| Catalog.AddCategory | script.js:88-129 | one category's loop writes that category's karts in order |
| Catalog.AddIdent | script.js:89-128 | one ident writes its numbered karts 1..N, or its single plain kart |
| Catalog.AddNumbered | script.js:94-109 | the `for` loop over 1..count writes the numbered karts in order |
| Catalog.Numbered | script.js:94-109 | a count of n gives n karts, each available in the category |
| Catalog.IdentKarts | script.js:89-127 | a marker with count N gives N karts, an ident without one gives a single kart showing the ident; every kart is available in its category |
| Catalog.NumberedShape | script.js:94-109 | a marker with count N expands to exactly N fresh karts; kart i has id `<cat>-<name>-i` and display `"name i"` |
| Catalog.MarkerExpansion | script.js:90-109 | the ident `"raw ×N"` yields N idle karts named after the trimmed raw name, numbered 1..N |
| Catalog.PlainExpansion | script.js:111-126 | an ident without a marker yields one kart whose display is the ident itself |
| Catalog.PlainKarts | script.js:111-126 | an ident the marker parse rejects yields the single plain kart |
| Catalog.IndexKeys | script.js:97 | the catalog map's keys are exactly the ids of the expanded karts |
| Catalog.IndexLast | script.js:97 | the map holds, under each id, the last kart written with that id |
| Catalog.IndexValues | script.js:97 | every stored record carries its own key as id and is one of the expanded karts |
| Catalog.CatalogIdle | script.js:103-108 | every freshly initialised kart is available with all five session fields null |
| Catalog.CaseCollides | script.js:112 | the idents "A" and "a" are distinct but slug to the same id |
| Catalog.SlugCollision | script.js:112-126 | two plain idents with the same slug leave one record, the later one; no error is raised |
| Catalog.WriteAllConcat | script.js:88-129 | writing two runs of karts in turn is writing their concatenation |
| Rental.Assign | script.js:73 | `Object.assign(kart, saved)`: a saved status or price30 replaces the kart's, and a field the saved object lacks, such as the end time, keeps the kart's value |
| Rental.SaveImage | script.js:58 | the saved object has one entry per kart |
| Rental.Overlaid | script.js:71-75 | overlaying saved entries never adds or drops a catalog id |
| Rental.Reconcile | script.js:65-83 | loading keeps exactly the catalog's ids; a missing or unparseable store re-initialises, and a re-initialised load is the catalog itself |
| Rental.ReconcileKeys | script.js:65-83 | after loadState the key set is the catalog's; saved ids outside the catalog are dropped |
| Rental.ReconcileEntry | script.js:71-75 | a catalog id without a saved object keeps its default; one with a saved object gets the default overlaid with every saved field, static ones included |
| Rental.ReconcileFresh | script.js:76-82 | missing or unparseable saved state gives the fresh catalog and re-initialises it |
| Rental.AssignImage | script.js:58-73 | overlaying a kart's full saved image gives the kart back |
| Rental.SaveLoadRoundTrip | script.js:56-83 | saving karts over the catalog's ids and loading them again restores exactly those karts, without re-initialising |
| Rental.ShapedKeepsInvariant | script.js:408-413 | a kart shaped by its status keeps both invariants: available means all session fields are null, and the end time and the stopwatch are never both set |
| Rental.StartKart | script.js:360-374 | a kart that is not available is unchanged; an available one becomes rented from now until now+d, with no stopwatch and the intended duration and price recorded |
| Rental.TickKart | script.js:488-491 | exactly an expired rental (rented, end set, now ≥ end) becomes pending_return; a kart in any other state, overdue included, is unchanged |
| Rental.ReturnNo | script.js:389-391 | "no" makes the kart overdue with the stopwatch at now and no end time; no other field changes |
| Rental.ResetFields | script.js:408-413 | the reset kart is available with every session field null and keeps its identity and prices |
| Rental.TransitionsKeepShape | script.js:360-413 | start, tick, "no" on a pending return, and reset each keep a kart shaped by its status |
| Rental.TickKartIdempotent | script.js:484-506 | a second tick at the same instant changes nothing; a kart that is not rented is never moved |
| Rental.TickAll | script.js:487 | tick keeps the set of karts |
| Rental.TickAllMoves | script.js:487-502 | tick moves each kart as TickKart says, and a second tick at the same instant changes nothing |
| Rental.TickAllShaped | script.js:484-506 | tick keeps every kart shaped |
| Rental.TickAllChanges | script.js:487-505 | the karts change exactly when at least one rental has expired |
| Rental.BillFor | script.js:258-280 | the bill's price is always intendedPrice; an early return is exactly a rented kart with a start time; an overdue bill is exactly an overdue kart with both times; a pending return is period-expired; every other case bills the intended duration |
| Rental.EarlyBill | script.js:264-267 | an early return bills whole minutes, at least one, and the elapsed time rounds to that figure, even past the end time |
| Rental.OverdueBill | script.js:268-272 | an overdue return bills the intended duration plus the stopwatch time rounded to whole minutes |
| Rental.LogEntry | script.js:40-49 | the entry records the kart's id, display and category, ends now, and holds the given duration and price; it starts at the session start, or the duration back from now when there is none |
| Rental.LoggedSessionCounts | script.js:35-51 | appending a session adds one to its category's count for every period it ends in, and nothing elsewhere |
| Rental.FormatTime | script.js:420 | `"00:00"` for ms ≤ 0 |
| Rental.FormatTimeFields | script.js:419-425 | for ms > 0, `MM:SS` with at least two minute digits and two second digits below 60, where MM·60+SS = ⌈ms/1000⌉ |
| KartApp.TickKarts | script.js:485-502 | the loop over the karts computes TickAll, and its `needsSave` flag says whether some rental expired |
| KartApp.Engine.constructor | script.js:18-20 | the page starts with no karts over the given storage |
| KartApp.Engine.SaveState | script.js:56-62 | the karts are written in full to storage; nothing else changes |
| KartApp.Engine.LoadState | script.js:65-83 | the karts become the reconciliation of the catalog with storage; storage is rewritten only when it was re-initialised; a fresh start is well shaped |
| KartApp.Engine.MergeSaved | script.js:71-75 | the loop over the catalog ids overlays each saved entry in place |
| KartApp.Engine.StartRental | script.js:360-378 | only the named kart changes, as StartKart says; storage is written only when a rental started; shape is kept |
| KartApp.Engine.Tick | script.js:484-506 | the karts become TickAll; storage is written exactly when some kart changed; shape is kept |
| KartApp.Engine.ShowElapsedTimeAndReset | script.js:258-280 | an unknown kart gives no bill; a known one gives its BillFor bill; nothing changes |
| KartApp.Engine.HandleReturnConfirmation | script.js:380-396 | only a pending return is acted on: "yes" produces the bill with no change, "no" makes the kart overdue and saves |
| KartApp.Engine.LogRentalToHistory | script.js:35-53 | unreadable history throws and changes nothing; otherwise exactly one entry is appended at the end |
| KartApp.Engine.ResetKart | script.js:398-416 | the kart ends available with every session field null and is saved; one entry is appended only when logging was asked for and the duration is positive; a throw while logging leaves everything unchanged; an unknown id does nothing |
| History.GetRentalHistory | history_script.js:6-9 | a missing key loads as the empty list; stored history loads as itself; only unparseable text throws |
| History.InPeriod | history_script.js:24-26 | the period's entries are a sub-multiset of the history: each entry that finished at or after the cutoff occurs as often as in the history, and no other entry occurs |
| History.CalculateStatistics | history_script.js:17-31 | the loop computes the per-category counts of entries that end at or after the cutoff |
| History.StatsCounts | history_script.js:24-28 | a category is a key exactly when it has an entry in the period, and its value is that count |
| History.StatsKeys | history_script.js:24-28 | the statistics' keys are exactly the categories of the entries in the period |
| History.StatsPositive | history_script.js:27 | every key has a count of at least one |
| History.StatsTotal | history_script.js:17-31 | the counts summed over all categories equal the number of entries in the period |
| History.TotalBump | history_script.js:27 | one increment adds one to the sum of the counts |
| History.CountMonotone | history_script.js:24-28 | an earlier cutoff never lowers a category's count |
| History.StatsMonotone | history_script.js:17-31 | an earlier cutoff keeps every category and never lowers its count |
| History.InsertDesc | history_script.js:44 | inserting into a list sorted by descending count keeps it sorted and adds exactly the one row |
| History.SortDesc | history_script.js:44 | the rows sorted by descending count are a permutation of the input |
| History.DisplayStatistics | history_script.js:39-46 | empty stats give the single "no rentals" line; otherwise the rows are sorted by descending count, one per key, each with its own count |
| History.Reverse | history_script.js:73 | `reverse()` keeps the length |
| History.ReverseAt | history_script.js:73 | element k of the reversal is element length−1−k of the history |
| History.DetailLabelAsWrittenIsUndefined | history_script.js:80 | the label as written is always "undefined", because the entry has no `kartDisplay` |
| History.DetailLabel | script.js:43 | the corrected label is the display name the entry was written with |
| History.DisplayDetailedLog | history_script.js:68-80 | no history gives the "no history" line; otherwise min(50, length) lines, line k showing entry length−1−k, newest first |
| History.NewestFirst | history_script.js:68-73 | after an append the first line shows the appended entry |
| History.HistoryPage.constructor | history_script.js:4-8 | the page starts over the given storage |
| History.HistoryPage.LoadAndDisplayAllHistory | history_script.js:92-106 | unparseable history throws; otherwise the three statistics and the log of the loaded history are shown |
| History.HistoryPage.ClearAll | history_script.js:119-126 | the key is removed, and the reload shows empty statistics and no history |
| Fleet.FormatMMSSFields | app.js:23-28 | for any input, `MM:SS` where MM·60+SS is the input clamped at 0, with SS < 60 and both fields at least two digits |
| Fleet.FormatHHMMSSFields | app.js:30-36 | for any input, `HH:MM:SS` where HH·3600+MM·60+SS is the input clamped at 0, with MM, SS < 60 and every field at least two digits |
| Fleet.FormatZero | app.js:23-36 | zero or negative seconds show `"00:00"` and `"00:00:00"` |
| Fleet.ClockReadBack | app.js:35 | joining three padded fields with `:` leaves each field readable at its place |
| Fleet.SplitClock | app.js:32-34 | hours, minutes and seconds put back together give the total |
| Fleet.IdsUpTo | app.js:291-292 | the ids `"1".."k"` are all present |
| Fleet.IdsUpToOnly | app.js:291-292 | and there are no other ids |
| Fleet.FreshFor | app.js:307-315 | one fresh record per id |
| Fleet.NumberIds | app.js:291-292 | a category's buttons are one per number in its range |
| Fleet.NumberIdsAt | app.js:291-292 | button j of a category starting at `first` is `first + j` |
| Fleet.CategoryCountIsSeven | app.js:16-18 | ⌈105/15⌉ = 7 categories |
| Fleet.InNumberIds | app.js:273-292 | a number is in a category's range exactly when it is one of its buttons |
| Fleet.OneSectionPerKart | app.js:272-316 | kart n is in category i exactly when i = ⌊(n−1)/15⌋; category i covers i·15+1..min((i+1)·15, 105) |
| Fleet.FleetConsistent | app.js:268-316 | the freshly generated fleet, with no interval running, is consistent |
| Fleet.Clear | app.js:106-113 | `clearInterval` on a handle removes it; on null it does nothing |
| Fleet.ResetF | app.js:97-121 | an unknown id changes nothing; otherwise only that kart changes: it becomes available with null end and overtime start and no truthy handle, the only intervals removed are the kart's truthy timer and stopwatch handles, and the next handle is kept |
| Fleet.StartCountdownF | app.js:124-166 | the kart becomes rented until now+d·60000 without a stopwatch, and a countdown is registered under the next handle, which becomes its timerId |
| Fleet.StartOvertimeF | app.js:169-197 | the kart becomes overtime from now with no countdown, and a stopwatch is registered under the next handle |
| Fleet.StopOvertimeF | app.js:200-226 | a no-op unless the kart is in overtime; then only that kart changes, it stays in overtime without a truthy stopwatch, exactly its truthy stopwatch handle leaves the interval table, the next handle is kept, and the rounded overtime seconds are reported |
| Fleet.OvertimeSeconds | app.js:218 | with a truthy overtime start, the nearest whole number of seconds since it (halves up); otherwise 0 |
| Fleet.FireF | app.js:142-193 | a handle not in the table shows nothing; a stale callback cancels, clears the handle its kart holds and changes no record; a running countdown shows the rounded seconds left and changes nothing, or at zero clears the timer and shows the prompt; a running stopwatch shows the rounded overtime seconds and changes nothing; no callback adds karts or handles |
| Fleet.ChooseDurationF | app.js:324-343 | the duration buttons change nothing unless the kart exists and is available; an available kart starts its countdown for the chosen minutes, as StartCountdownF says |
| Fleet.ReturnYesF | app.js:349-355 | an empty or unknown id changes nothing; otherwise only that kart changes, it becomes available and its truthy handles are cleared |
| Fleet.ReturnNoF | app.js:356-367 | an empty or unknown id changes nothing; a rented kart, or one whose end time (null as 0) has passed, enters overtime from now exactly as StartOvertimeF says (countdown cleared, stopwatch under the next handle); any other kart is reset exactly as ResetF says |
| Fleet.OvertimeOkF | app.js:370-376 | an empty or unknown id changes nothing; otherwise only that kart changes, it becomes available and its truthy handles are cleared |
| Fleet.KartClickF | app.js:231-262 | an unknown or available kart changes nothing; a rented kart is reset as ResetF says (next handle kept) only when the early return is confirmed; an overtime kart is stopped exactly as StopOvertimeF says, stays in overtime and reports its overtime seconds |
| Fleet.FireNeverStale | app.js:142-189 | in a consistent page a callback always finds its kart in its own status, so it never has to cancel itself |
| Fleet.CountdownExpiry | app.js:148-158 | when the rounded remaining seconds are ≤ 0 the countdown clears itself and shows the return prompt, and the status stays rented |
| Fleet.ResetKeeps | app.js:97-121 | reset keeps the page consistent, leaves no interval for the kart, and makes its record fresh |
| Fleet.StartCountdownKeeps | app.js:124-166 | starting a countdown keeps the page consistent |
| Fleet.StartOvertimeKeeps | app.js:169-197 | starting overtime keeps the page consistent |
| Fleet.StopOvertimeKeeps | app.js:200-226 | stopping overtime keeps the page consistent |
| Fleet.FireKeeps | app.js:142-193 | firing any callback keeps the page consistent |
| Fleet.HandlersKeep | app.js:231-376 | every click and modal handler keeps the page consistent |
| Fleet.HandlerOutcomes | app.js:349-376 | "yes" and "OK" leave the kart fresh with no interval for it; "no" on a rented kart starts its overtime at now; an empty or unknown id changes nothing |
| FleetApp.AddSection | app.js:272-316 | one pass of the outer loop adds the next 15 fresh records and the category's section |
| FleetApp.BuildFleet | app.js:268-316 | the nested loops build exactly the fleet `"1".."105"` and its seven sections |
| FleetApp.FleetPage.constructor | app.js:20 | an empty page whose first handle is 1 |
| FleetApp.FleetPage.SetInterval | app.js:142 | `setInterval` registers the callback under a fresh handle and returns it |
| FleetApp.FleetPage.ClearInterval | app.js:106-113 | `clearInterval` removes the handle, or nothing for null |
| FleetApp.FleetPage.GenerateKartButtons | app.js:268-320 | the records become the fresh fleet, the sections are the seven categories, and the page is consistent |
| FleetApp.FleetPage.ResetKart | app.js:97-121 | the page changes as ResetF says and stays consistent |
| FleetApp.FleetPage.StartCountdown | app.js:124-166 | the page changes as StartCountdownF says and stays consistent |
| FleetApp.FleetPage.StartOvertime | app.js:169-197 | the page changes as StartOvertimeF says and stays consistent |
| FleetApp.FleetPage.StopOvertime | app.js:200-226 | the page and the result are those of StopOvertimeF, and the page stays consistent |
| FleetApp.FleetPage.Fire | app.js:142-193 | running a callback changes the page as FireF says, keeps it consistent, and never hits the stale-status guard |
| FleetApp.FleetPage.FireCountdown | app.js:142-162 | the countdown body (cancel if stale, show the time left, or clear and prompt) in place |
| FleetApp.FleetPage.FireStopwatch | app.js:185-193 | the stopwatch body (cancel if stale, else show the overtime seconds) in place |
| FleetApp.FleetPage.ChooseDuration | app.js:324-343 | the duration buttons, in place |
| FleetApp.FleetPage.ReturnYes | app.js:349-355 | the return "yes" handler, in place |
| FleetApp.FleetPage.ReturnNo | app.js:356-367 | the return "no" handler, in place |
| FleetApp.FleetPage.OvertimeOk | app.js:370-376 | the overtime "OK" handler, in place |
| FleetApp.FleetPage.KartClick | app.js:231-262 | a click on a kart: nothing when available, reset after a confirmed early return, overtime stopped in overtime |

## Left out

- Rendering is not modelled: buttons, popups, modals, CSS classes, `updateButtonState`/`updateButtonAppearance`, and the DOM part of `displayStatistics`. It is user-interface work only.
- The expiry side path of `updateButtonState` (script.js:450-459) is not modelled. It repeats tick's transition alongside asynchronous notification work; tick is the transition modelled.
- Notifications, permission requests and `navigator.vibrate` (script.js:195-240) are asynchronous calls into the browser.
- The click dispatch of script.js (`handleKartClick`, the rental and return popups, script.js:243-356) only chooses which modelled operation to call, through the DOM.
- Real timers and the clock are not modelled. `setInterval(tick, 1000)` and `Date.now()` become explicit calls with a `now` parameter, so concurrency and wall-clock behaviour are outside the model.
- JSON text is not modelled. Storage holds typed values; parsing either gives such a value or fails. A saved kart whose status is not one of the four names, or whose fields have other JSON types, is outside the model. So is a truthy entry under an id that is not an object.
- Quota errors from `localStorage.setItem` in saveState are not modelled (a browser failure).
- The `await` of the notification permission inside `startRental` is not modelled: another handler running during that wait is concurrency. The transition is taken as one step.
- `toLowerCase` is modelled for ASCII letters only; other characters are kept as they are.
- `parseInt` precision loss for counts beyond 2^53 is not modelled; counts are unbounded naturals.
- The defaults of resetKart's omitted arguments are not modelled: every call site passes them.
- Locale date formatting and the local-midnight cutoff arithmetic (history_script.js:11-22) depend on the time zone. The cutoffs are parameters.
- History.SortDesc: `Array.prototype.sort` is stable, but the model proves only sorted order and permutation. Rows with equal counts may therefore appear in a different order.
- History.DisplayStatistics: the order of `Object.entries` is a parameter that must list each key once. The model does not derive it from insertion order.
- History that parses but is not an array is outside the model.
- Fleet.FireF: the captured kart object is not modelled. When a callback's kart id has disappeared from `kartStatus`, the source still clears the captured object's timer; the model only reports the cancellation. In a consistent page this case cannot arise (Fleet.FireNeverStale).
- Fleet.FireF: the callbacks report the seconds they would display, not the text. The text is `FormatTimeMMSS`/`FormatTimeHHMMSS` of those seconds, and its format is proved separately.
- The `kartData` table of script.js:5-15 is the constant `Catalog.KartData`, but `KartApp.Engine.LoadState` takes the catalog as a parameter, so the proofs hold for any catalog.
- Catalog.InitializeKartData: its `shouldSave` save is done by `KartApp.Engine.LoadState`, which saves exactly when it re-initialises.
- History.DisplayDetailedLog: its lines use the corrected label History.DetailLabel, the entry's display name. The source as written shows "undefined" there (see Findings, and History.DetailLabelAsWrittenIsUndefined).
- `saveRentalHistory` and `formatDateTime`, and the delete-confirmation modal on the history page, are display or storage glue around the modelled operations.

Where the source's comments and its code differ, the model follows the code:

- A duplicate id silently overwrites the earlier kart; no error is raised.
- In script.js the overdue stopwatch starts when "no" is answered, not at the paid end.
- An unknown kart id returns silently rather than raising a not-found error.

## Findings

| source | as written | input that shows it | evidently intended | confidence | as-written member | corrected member |
|---|---|---|---|---|---|---|
| history_script.js:80 | the detail line reads `rental.kartDisplay`, but script.js:43 writes the entry's name as `display`, so the label is always `undefined` | any stored entry, e.g. one written for kart `"Rookie 1"` | the line shows the kart's display name | not executed | History.DetailLabelAsWrittenIsUndefined | History.DetailLabel |
