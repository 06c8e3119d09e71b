# PartLife Manager core, modelled in Dafny

PartLife Manager tracks replaceable parts installed on machines. For each part it
derives a wear status from the days elapsed since installation against the part's
expected lifespan. The operator can add, edit, clone and replace parts, and can filter
the inventory by machine and by part name.

This project models that core:

- `part_types.dfy` (module `PartTypes`): the records `Part`, `PartHealth`, `PartStatus`, the form payload `SaveData` and the form `Mode`.
- `health.dfy` (module `Health`): the health derivation `calculateHealth`, the per-id health map and the two dashboard counts.
- `filter_view.dfy` (module `FilterView`): the two sorted, de-duplicated facet lists and the conjunctive filter.
- `inventory.dfy` (module `Inventory`): the application state as class `Inventory`. Its fields are `parts`, `selectedMachine`, `selectedPartName`, `partToReplace`, `modalMode` and `selectedPart`. Its methods are the handlers that change them. The module also holds the pure list transformations those handlers apply, and the seed inventory.
- `add_part_modal.dfy` (module `AddPartModal`): the part form as class `PartForm`. It holds the five input fields, the prefill for each mode, the submit guard and payload, and the labels.
- `wrappers.dfy` (module `Wrappers`): `Option`.

Conventions:

- Instants are integer milliseconds since the Unix epoch.
- The wall clock is a parameter `now`; so is the id minted for a new part.
- The string `"all"` (`PartTypes.ALL`) is the sentinel for "no filter" and "nothing pending".
- `percentageUsed` is an exact rational (`real`), so the 85% and 100% thresholds are compared without rounding.
- An empty lifespan or date input is `None`.
- A date input holds a calendar day, represented by the instant of its UTC midnight (`AddPartModal.StartOfDay`).

Behaviour worth knowing, all proved:

- Elapsed days take the absolute distance between install and now. A future install date therefore counts as wear (`Health.ElapsedIgnoresDirection`).
- `daysRemaining` may be negative, and the percentage is not clamped.
- The dashboard counts are taken over the values of the id-keyed health map, so they count ids, not list entries. With unique ids the two agree (`Health.StatusCountOfUnique`).
- The edit form shows the install date as a day. Saving an untouched edit form therefore moves the install instant back to the UTC midnight of its day (`AddPartModal.EditRoundTrip`). As a result, for an install in the past, `daysElapsed` stays the same or grows by exactly one after a save that changed nothing (`AddPartModal.EditSaveAddsAtMostOneDay`); a noon install saved at once goes from 0 to 1 (`AddPartModal.EditSaveCanAddADay`).
- Replacing a part and evaluating its health read the clock separately. Evaluated at the same instant, a replaced part is Good with 0 days elapsed (`Inventory.ReplacedPartIsGood`); evaluated any later instant within a day, it is one day old, which is Critical for a one-day lifespan (`Inventory.ReplacedPartLaterInTheDay`).
- Saving goes down the update path only in edit mode with a non-empty id. An edit form opened without a part appends a new part instead (`Inventory.EditWithoutPartAppends`).

Error handling is as loose as the code's:

- Editing or replacing an id that no part carries is silently a no-op, not an error (`Inventory.EditAbsent`, `Inventory.ReplaceAbsent`).
- A lifespan of zero or less is not rejected by the submit handler. Only the input's `min="1"` constraint keeps it out, so it is a precondition (`AddPartModal.PartForm.Submit`, `Inventory.Inventory.SavePart`).
- Uniqueness of minted ids is not guaranteed by the code. The fresh id is a parameter that must not be among the existing ids when a save appends.

## Model

| member | source | states |
|---|---|---|
| Health.DaysElapsed | App.tsx:73-74 | the elapsed day count is the least whole number of days covering the absolute distance between install and now; never negative |
| Health.PercentageUsed | App.tsx:76 | the percentage is never negative, is zero exactly for zero elapsed days, and exceeds 100 exactly when the elapsed days exceed the lifespan (no clamp) |
| Health.StatusOf | App.tsx:79-81 | Critical iff the percentage is at least 100, Warning iff it is at least 85 and below 100, Good iff below 85 |
| Health.CalculateHealth | App.tsx:70-84 | `daysRemaining` is lifespan minus elapsed days (possibly negative); the percentage is `PercentageUsed` of the elapsed days and the status is `StatusOf` that percentage; status is Critical iff elapsed days reach the lifespan, Warning iff they reach 85% of it but not 100%, Good iff below 85% |
| Health.StatusBands | App.tsx:76-81 | the real percentage reaches 100 iff `d >= lifespan`, and reaches 85 iff `100*d >= 85*lifespan` |
| Health.ElapsedIgnoresDirection | App.tsx:73 | an install instant `k` ms in the future yields the same elapsed days as one `k` ms in the past |
| Health.ElapsedWholeDays | App.tsx:73-74 | exactly `n` days gives `n` elapsed days; one millisecond more rounds up to `n + 1` |
| Health.OneYearScenario | App.tsx:70-84 | a 365-day part is Good at day 300, Warning at day 311, Critical at day 365, and has -35 days remaining at day 400 |
| Health.FreshInstallIsGood | App.tsx:73-81 | a part installed at the evaluation instant has 0 elapsed days, full lifespan remaining, 0% used, status Good |
| Health.HealthMap | App.tsx:86-92 | the health map's keys are exactly the ids of the parts |
| Health.HealthMapLastWins | App.tsx:88-90 | the entry for an id is the health of the last part carrying that id |
| Health.HealthMapOfUnique | App.tsx:86-92 | with unique ids, each part's entry is its own health |
| Health.BandsPartition | App.tsx:79-81 | every part is in exactly one band: the Good, Warning and Critical counts add up to the number of parts |
| Health.StatusCount | App.tsx:203-205 | a band's count over the health map is at most the number of entries in the map |
| Health.StatusCountOfUnique | App.tsx:203-205 | with unique ids, counting health-map values in a band equals counting parts in that band |
| FilterView.BelowIrreflexive | App.tsx:97 | the string order used for sorting is irreflexive |
| FilterView.BelowTransitive | App.tsx:97 | the string order is transitive |
| FilterView.BelowTotal | App.tsx:97 | any two different strings are ordered one way or the other |
| FilterView.Insert | App.tsx:96-97 | inserting into a strictly ascending list keeps it strictly ascending, and adds exactly the new value |
| FilterView.SortedDistinct | App.tsx:96-97 | the result is strictly ascending and holds exactly the values of the input |
| FilterView.AscendingDistinct | App.tsx:96-97 | a strictly ascending list has no duplicates |
| FilterView.AscendingUnique | App.tsx:96-97 | two strictly ascending lists with the same elements are equal, so the facet is the one sorted list of the distinct values |
| FilterView.UniqueMachines | App.tsx:95-98 | the machine facet is strictly ascending and contains exactly the machine ids occurring in the parts |
| FilterView.UniquePartNames | App.tsx:101-104 | the name facet is strictly ascending and contains exactly the part names occurring in the parts |
| FilterView.FacetsAreCanonical | App.tsx:95-104 | inventories with the same parts, in any order, have the same facets |
| FilterView.Matches | App.tsx:107-110 | both filters on the sentinel let every part through; a specific machine filter other than the part's, or a specific name filter other than the part's, keeps it out |
| FilterView.FilterParts | App.tsx:106-112 | a part is visible iff it is in the inventory and (machine filter is the sentinel or matches) and (name filter is the sentinel or matches); never longer than the inventory |
| FilterView.FilterIsSubsequence | App.tsx:107 | the visible list is an order-preserving subsequence of the inventory |
| FilterView.FilterConcat | App.tsx:107 | filtering distributes over concatenation |
| FilterView.FilterAllIsIdentity | App.tsx:108-109 | with both filters on the sentinel the visible list is the whole inventory, same order |
| FilterView.FilterKeepsAllIff | App.tsx:106-112 | the visible list is the whole inventory iff every part matches both filters |
| Inventory.ReplaceInstall | App.tsx:123-128 | same length; parts with the pending id get `installDate := now` and nothing else; the other parts are unchanged |
| Inventory.ReplaceKeepsValid | App.tsx:123-128 | replacement keeps every id and the unique-ids / positive-lifespan invariant |
| Inventory.ReplaceAbsent | App.tsx:123-128 | replacing an id no part carries leaves the list unchanged |
| Inventory.ReplacedPartIsGood | App.tsx:125 | re-evaluated at the replacement instant itself, a replaced part has 0 elapsed days and status Good; the rendered health uses a later clock reading (see `ReplacedPartLaterInTheDay`) |
| Inventory.ReplacedPartLaterInTheDay | App.tsx:120-130 | evaluated at any instant after the replacement and at most a day later, the replaced part has exactly 1 elapsed day, and is Critical when its lifespan is one day |
| Inventory.ApplyEdit | App.tsx:154-162 | the edited part keeps its id and notes and takes the submitted machine, name, category, lifespan and install date |
| Inventory.EditParts | App.tsx:153-164 | same length and ids; the matching part takes exactly the submitted machine, name, category, lifespan and install date and keeps its notes; the others are unchanged |
| Inventory.EditKeepsValid | App.tsx:153-164 | an edit keeps every id, and the invariant when the new lifespan is positive |
| Inventory.EditAbsent | App.tsx:153-164 | editing an id no part carries leaves the list unchanged |
| Inventory.NewPart | App.tsx:166-173 | the new part carries the minted id and no notes, and its other fields are the submitted ones (editing it with the same data changes nothing) |
| Inventory.IsUpdate | App.tsx:151 | only edit mode with an id takes the update path; a missing or empty id never does |
| Inventory.AppendKeepsValid | App.tsx:167-175 | appending a part with a fresh id and positive lifespan keeps the invariant and adds exactly that id |
| Inventory.MachineAfterAppend | App.tsx:179-181 | after an append the machine filter is unchanged when it was the sentinel or the new part's machine, and otherwise switches to the new part's machine |
| Inventory.ClonedSubmissionAppends | App.tsx:151 | a submitted clone form is never an update |
| Inventory.EditedSubmissionUpdates | App.tsx:151 | a submitted edit form for a part with a non-empty id takes the update path with that id |
| Inventory.EditWithoutPartAppends | App.tsx:151 | an edit form opened without a part takes the append path |
| Inventory.SeedParts | App.tsx:21-27 | five parts with ids "1" to "5", unique ids, positive lifespans, all installed before the load instant |
| Inventory.SeedAtLoad | App.tsx:21-27 | the seed inventory has unique ids and positive lifespans; evaluated at the exact load instant the oil is in Warning, the cabin filter is Critical with -35 days remaining, the rest are Good; the first render reads the clock later than the seed does, and that later instant is not modelled |
| Inventory.Inventory.constructor | App.tsx:33-60 | starts from the saved list if present, else the seed; both filters and the pending replacement on the sentinel; create mode, no selected part |
| Inventory.Inventory.SelectMachine | App.tsx:297 | the machine filter becomes the chosen value |
| Inventory.Inventory.SelectPartName | App.tsx:315 | the name filter becomes the chosen value |
| Inventory.Inventory.ClearFilters | App.tsx:364 | both filters return to the sentinel |
| Inventory.Inventory.InitiateReplace | App.tsx:116-118 | the pending replacement becomes the given id |
| Inventory.Inventory.CancelReplace | App.tsx:411 | the pending replacement returns to the sentinel |
| Inventory.Inventory.ConfirmReplace | App.tsx:120-130 | with nothing pending (empty or sentinel) nothing changes; otherwise the parts become the replacement of the pending id at `now` and the pending mark returns to the sentinel; the invariant is kept |
| Inventory.Inventory.OpenCreateModal | App.tsx:132-136 | create mode, no selected part |
| Inventory.Inventory.OpenEditModal | App.tsx:138-142 | edit mode, the given part selected |
| Inventory.Inventory.OpenCloneModal | App.tsx:144-148 | clone mode, the given part selected |
| Inventory.Inventory.SavePart | App.tsx:150-182 | an edit with an id updates in place and leaves the machine filter alone; anything else appends exactly one new part with the fresh id, adds exactly that id, and moves the machine filter per `MachineAfterAppend`; the invariant is kept |
| Inventory.Inventory.PartsHealth | App.tsx:86-92 | the map filled part by part equals the health map of the parts |
| Inventory.Inventory.DashboardCounts | App.tsx:202-205 | the Critical and Warning counts are the numbers of parts in those bands, and together at most the inventory size |
| AddPartModal.StartOfDay | components/AddPartModal.tsx:54-55 | the day start is a UTC midnight at or before the instant and less than a day before it |
| AddPartModal.PrefillDraft | components/AddPartModal.tsx:42-69 | edit copies machine, name, category, lifespan and the install day; clone clears the machine, copies name, category and lifespan, and takes today; otherwise (including edit or clone without a part) the machine is the selected one or empty for the sentinel or absent, name empty, category General, lifespan empty, today |
| AddPartModal.Submission | components/AddPartModal.tsx:73-86 | a payload exists iff machine, name, lifespan and date are filled in (category unchecked); it carries the form's values, and an id iff in edit mode with a part, namely that part's id |
| AddPartModal.Title | components/AddPartModal.tsx:88-92 | "Edit Part Details" exactly in edit mode, "Clone Part to New Machine" exactly in clone mode, "Add New Part" exactly in create mode |
| AddPartModal.ButtonText | components/AddPartModal.tsx:94-98 | "Save Changes" exactly in edit mode, "Clone Part" exactly in clone mode, "Add Part" exactly in create mode |
| AddPartModal.LabelsDistinguishModes | components/AddPartModal.tsx:88-98 | different modes get different titles and different button texts |
| AddPartModal.EditRoundTrip | components/AddPartModal.tsx:44-55 | submitting an untouched edit form gives the part's id and fields back, with the install instant moved to the UTC midnight of its day |
| AddPartModal.EditSaveAddsAtMostOneDay | components/AddPartModal.tsx:51-55 | for an install in the past, moving it to its UTC midnight keeps the elapsed days or adds exactly one |
| AddPartModal.EditSaveCanAddADay | components/AddPartModal.tsx:51-55 | a noon install evaluated at once has 0 elapsed days, its midnight-moved copy has 1 |
| AddPartModal.CloneNeedsMachine | components/AddPartModal.tsx:46 | a freshly prefilled clone form cannot be submitted; once a machine is entered it submits the source's name, category and lifespan, today, and no id |
| AddPartModal.PartForm.constructor | components/AddPartModal.tsx:36-40 | the fields start empty with category General |
| AddPartModal.PartForm.Prefill | components/AddPartModal.tsx:42-69 | while open, the fields become the prefilled draft for the mode; while closed, nothing changes |
| AddPartModal.PartForm.SetMachineId | components/AddPartModal.tsx:117 | typing changes only the machine field |
| AddPartModal.PartForm.SetName | components/AddPartModal.tsx:130 | typing changes only the name field |
| AddPartModal.PartForm.SetCategory | components/AddPartModal.tsx:144 | typing changes only the category field |
| AddPartModal.PartForm.SetLifespan | components/AddPartModal.tsx:161 | typing changes only the lifespan field |
| AddPartModal.PartForm.SetInstallDate | components/AddPartModal.tsx:174 | picking a date changes only the date field; the date input yields only UTC midnights |
| AddPartModal.PartForm.Submit | components/AddPartModal.tsx:73-86 | the payload handed to the save callback is the submission of the current fields; given the input's minimum of 1, its lifespan is positive |

## Left out

- Rendering, layout, colours and icons, including the card's display clamp of the percentage to 100. These are presentation only.
- Local-storage reading and writing, and JSON parsing. The saved list is a constructor parameter. A list read back from storage is not validated by the code, so the model requires it to satisfy the invariant.
- The advisory chat, the network call behind it and its message list. These are an external service and its UI.
- The view-mode and dialog-open flags. They carry no logic.
- Id minting with `Math.random`. It is a parameter that must not be among the existing ids.
- Date and ISO-string parsing and formatting. Dates are integer milliseconds, so the edit prefill's fallback for an unparseable date cannot arise.
- Floating-point rounding. The percentage is exact and the elapsed days are an exact ceiling. For whole-millisecond distances the double-precision quotient is never within rounding error of an integer unless it is one, so the ceiling agrees.
- Conversion between the lifespan input's text and its number. The input is modelled as the number it holds, or as empty.
- FilterView.Below: JavaScript's default sort compares UTF-16 code units, while the model compares characters by Unicode scalar value. The two orders differ only for characters outside the Basic Multilingual Plane.
- PartsHealth, DashboardCounts: `now` is a parameter, while the source memoises the health map on the parts list, so the displayed health is the one computed at mount or at the last change of the list, not at render time; the model does not track which instant that was.
- React's asynchronous state batching. The handlers are modelled as sequential updates of the component state.
