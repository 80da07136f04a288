# Zoneless filter panel — a Dafny model

This project models the `ZonelessComponent` of an Angular widget. The widget
is a drop-down, multi-select filter panel with two levels: filters, some of
which own sub-filters ("stages"). The user's selection is kept in the
browser's IndexedDB under one fixed key.

The model covers:

- the fixed default catalogue: five filters, of which only "sales" has
  children, four of them;
- the mutations `toggleFilter`, `toggleSubFilter`, `selectAll` and
  `clearSelection`, and how they move flags between parent and children;
- the derived queries: the selected count, "all selected", the button label,
  the icon class, and the pluralised Russian summary;
- the panel controller (`handleButtonClick`, `toggleList`, `clickout`), with
  the store writes each of them triggers;
- the start-up sequence: the default catalogue first, then the stored
  snapshot if there is one.

Layout:

- `wrappers.dfy`: `Option`, used for the optional `subFilters` property and
  for the storage slot.
- `filters.dfy` (module `FilterModel`): the `Filter` and `SubFilter` records
  as datatypes. Also the parent/child invariant (`Consistent`), the "shape"
  of a list (everything but the flags), a value-level function for each
  mutation, the counts, and the lemmas about them.
- `display.dfy` (module `Display`): button label, icon class, decimal
  rendering of a count, the plural rule, the summary, and the lemmas about
  them.
- `zoneless.dfy` (module `Zoneless`): the component as a class. It holds the
  fields `filters` and `isListOpen`, the storage slot `stored`, and a ghost
  log `saves` of every snapshot written. Each mutating method states its
  whole new state. `MarkSubFilters` and `MarkFilters` are the source's
  `forEach` loops, proved against `MarkSubs` and `WithAllSelections`.
- `scenarios.dfy` (module `Scenarios`): concrete scenarios over the default
  catalogue, proved as lemmas.

Filters and sub-filters are named by their positions `i` and `j` in the list,
not by object reference. The source's callers are template bindings that
always pass an element of `filters` (and a child of that element), so the
methods require `i < |filters|` and `j < |Subs(filters[i])|`.

Two behaviours of the source that the model keeps as written:

- A button press while the panel is open never closes it: it only clears or
  selects everything (zoneless.component.ts:145-156). Only `clickout` closes
  the panel (zoneless.component.ts:243-251).
- `getSelectedCount` adds one for every set flag, the parents' flags and the
  children's alike (zoneless.component.ts:123-132).

## Model

| member | source | states |
|---|---|---|
| `FilterModel.DefaultCatalogueFacts` | src/app/components/zoneless/zoneless.component.ts:52-70 | the catalogue has 5 filters, "sales" first with 4 children, the rest without children, nothing selected, 9 items in all, and the parent/child invariant holds |
| `FilterModel.WithSelectionFacts` | src/app/components/zoneless/zoneless.component.ts:172-177 | setting one filter's subtree to `v` sets its own flag and every child's flag to `v`, keeps the shape, and leaves the filter consistent, fully selected iff `v` and active iff `v` |
| `FilterModel.WithAllSelectionsFacts` | src/app/components/zoneless/zoneless.component.ts:171-190 | after selectAll / clearSelection every filter and sub-filter flag equals `v`, the ids, names, hierarchy and order are unchanged, the invariant holds, and the list is all selected (`v`) or has nothing selected (`!v`) |
| `FilterModel.WithAllSelectionsIdempotent` | src/app/components/zoneless/zoneless.component.ts:171-190 | selectAll twice equals selectAll once, and the same for clearSelection |
| `FilterModel.ToggledFilterFacts` | src/app/components/zoneless/zoneless.component.ts:193-199 | toggleFilter negates the filter's flag, gives every child the new value, keeps the shape, and leaves the filter consistent |
| `FilterModel.ToggledSubFilterFacts` | src/app/components/zoneless/zoneless.component.ts:202-211 | toggleSubFilter negates child `j` only, leaves its siblings unchanged, sets the parent to "every child selected", and keeps the shape |
| `FilterModel.ConsistentAfterToggleFilter` | src/app/components/zoneless/zoneless.component.ts:193-199 | toggleFilter preserves the parent/child invariant of the whole list |
| `FilterModel.ConsistentAfterToggleSubFilter` | src/app/components/zoneless/zoneless.component.ts:202-211 | toggleSubFilter preserves the parent/child invariant of the whole list |
| `FilterModel.ConsistentAfterWithAllSelections` | src/app/components/zoneless/zoneless.component.ts:171-190 | selectAll and clearSelection establish the parent/child invariant, whatever the list was before |
| `FilterModel.CountSelectedSubsFacts` | src/app/components/zoneless/zoneless.component.ts:128 | the number of selected children is at most the number of children, zero iff none is selected, and full iff all are |
| `FilterModel.SelectedCountZeroIff` | src/app/components/zoneless/zoneless.component.ts:123-132 | the selected count is zero exactly when no filter or sub-filter is selected |
| `FilterModel.SelectedCountFullIff` | src/app/components/zoneless/zoneless.component.ts:123-142 | the selected count is at most the number of items, and equals it exactly when allFiltersSelected holds |
| `FilterModel.TotalItemsOfSameShape` | src/app/components/zoneless/zoneless.component.ts:171-190 | two lists of the same shape have the same number of items |
| `FilterModel.SelectedCountAfterWithAllSelections` | src/app/components/zoneless/zoneless.component.ts:123-190 | the count equals the total item count after selectAll and is zero after clearSelection |
| `FilterModel.ActiveFilterCountFacts` | src/app/components/zoneless/zoneless.component.ts:215-221 | the summary's filter count is at most the number of filters, is zero exactly when nothing is selected, and is positive whenever some sub-filter is selected |
| `Display.ButtonTextSpec` | src/app/components/zoneless/zoneless.component.ts:95-105 | closed: "Открыть фильтры"; open: "Очистить выбор" iff the selected count is positive, "Выбрать всё" iff it is zero |
| `Display.ToggleIconClassSpec` | src/app/components/zoneless/zoneless.component.ts:108-142 | closed: no class; open: "icon-empty" iff nothing is selected, "icon-minus" iff something but not everything is, "icon-check" iff something and everything is (equivalently 0 < count == total) |
| `Display.DigitChar` | src/app/components/zoneless/zoneless.component.ts:238 | a digit value below ten renders as a decimal digit character |
| `Display.NatToString` | src/app/components/zoneless/zoneless.component.ts:238 | an interpolated count is a non-empty string of decimal digits, with a leading zero only for zero |
| `Display.ParseNatToString` | src/app/components/zoneless/zoneless.component.ts:238 | reading the rendered count back as a decimal number gives the count |
| `Display.Plural` | src/app/components/zoneless/zoneless.component.ts:223-232 | the noun follows the four-bucket rule: 1 takes the singular, 2 to 4 the paucal form, 0 and 5 or more the genitive plural |
| `Display.SummaryEmptyIff` | src/app/components/zoneless/zoneless.component.ts:214-238 | the summary is "Нет выбранных фильтров" exactly when no filter or sub-filter flag is set |
| `Display.SummaryLeadingCount` | src/app/components/zoneless/zoneless.component.ts:214-238 | when something is selected, the summary begins with the decimal count of filters taking part (between 1 and the number of filters), followed by a space |
| `Display.SummaryOneFilter` | src/app/components/zoneless/zoneless.component.ts:214-238 | one filter taking part and no selected sub-filter gives "1 воронка, 0 этапов" |
| `Zoneless.MarkSubFilters` | src/app/components/zoneless/zoneless.component.ts:196 | the loop over the children leaves every child with its flag set to `v`, and nothing else changed |
| `Zoneless.MarkFilters` | src/app/components/zoneless/zoneless.component.ts:171-190 | the loop over the filters sets every filter's flag, and every child's flag, to `v` |
| `Zoneless.ZonelessComponent.constructor` | src/app/components/zoneless/zoneless.component.ts:36-42 | a new component has an empty list and a closed panel, and sees what earlier sessions stored; nothing has been written |
| `Zoneless.ZonelessComponent.NgOnInit` | src/app/components/zoneless/zoneless.component.ts:44-49 | start-up leaves the stored snapshot in the list if there is one, the default catalogue otherwise, and writes nothing |
| `Zoneless.ZonelessComponent.InitFilters` | src/app/components/zoneless/zoneless.component.ts:52-70 | the list becomes the default catalogue, which satisfies the invariant |
| `Zoneless.ZonelessComponent.LoadStateFromDB` | src/app/components/zoneless/zoneless.component.ts:82-87 | a present snapshot replaces the list; an absent one leaves it unchanged |
| `Zoneless.ZonelessComponent.SaveStateToDB` | src/app/components/zoneless/zoneless.component.ts:90-92 | the slot holds the current list, and exactly one write is logged |
| `Zoneless.ZonelessComponent.ToggleList` | src/app/components/zoneless/zoneless.component.ts:159-168 | the panel takes the given state or flips; closing writes the list once, opening writes nothing |
| `Zoneless.ZonelessComponent.SelectAll` | src/app/components/zoneless/zoneless.component.ts:171-179 | every flag set, count equals the item count, shape kept, invariant holds, panel unchanged, exactly one write of the new list |
| `Zoneless.ZonelessComponent.ClearSelection` | src/app/components/zoneless/zoneless.component.ts:182-190 | every flag cleared, count zero, shape kept, invariant holds, panel unchanged, exactly one write of the new list |
| `Zoneless.ZonelessComponent.ToggleFilter` | src/app/components/zoneless/zoneless.component.ts:193-199 | only filter `i` changes: its flag is negated and copied to its children; the invariant is preserved and exactly one write of the new list happens |
| `Zoneless.ZonelessComponent.ToggleSubFilter` | src/app/components/zoneless/zoneless.component.ts:202-211 | only child `j` of filter `i` is negated, its siblings and the other filters are unchanged, the parent becomes "all children selected", the invariant is preserved, exactly one write |
| `Zoneless.ZonelessComponent.GetSelectedCount` | src/app/components/zoneless/zoneless.component.ts:123-132 | the counter loop returns the number of selected filter flags plus the number of selected sub-filter flags, zero iff nothing is selected |
| `Zoneless.ZonelessComponent.HandleButtonClick` | src/app/components/zoneless/zoneless.component.ts:145-156 | closed: the panel opens, the selection and the store are unchanged; open: it stays open, clears everything if anything is selected and selects everything otherwise, with exactly one write |
| `Zoneless.ZonelessComponent.Clickout` | src/app/components/zoneless/zoneless.component.ts:243-251 | an outside click on an open panel closes it and writes the unchanged list once; any other click changes nothing |
| `Zoneless.SaveThenReload` | src/app/components/zoneless/zoneless.component.ts:44-92 | after a save, a new session over the same store shows exactly the saved list with its panel closed; the old component keeps its list and panel state and has logged exactly one write of that list |
| `Scenarios.SalesToggledTwice` | src/app/components/zoneless/zoneless.component.ts:193-199 | on the catalogue, toggling "sales" selects it and its 4 stages; toggling again clears all five and restores the catalogue |
| `Scenarios.UnsortedSwitchedOff` | src/app/components/zoneless/zoneless.component.ts:202-211 | with "sales" selected, switching "unsorted" off clears "sales" and keeps the other 3 stages selected |
| `Scenarios.StaffOnlySummary` | src/app/components/zoneless/zoneless.component.ts:214-238 | selecting only "staff" in the catalogue gives the summary "1 воронка, 0 этапов" |

## Left out

- IndexedDB plumbing (`openDB`, the upgrade callback, the `idb` library, the database name and version) is left out. The store is the single slot `stored`, plus the ghost log `saves`, which exists so that "exactly one write" can be stated.
- Asynchrony is left out: every write is modelled as finishing at once. The model does not capture the last-write-wins race between overlapping writes, the window before the start-up read resolves, or a failing write surfacing as an unobserved rejection.
- DOM containment (`nativeElement.contains`) and the presence of the `@ViewChild` container are left out. `Clickout` takes both as boolean inputs.
- Angular decorators, `@HostListener` wiring, templates and styles are left out.
- Pure queries are functions of the panel state `(isListOpen, filters)`, not class members: `ButtonText`, `ToggleIconClass`, `SelectedSummary`, `AllFiltersSelected` and `AnySelected`. The source's `some`, `every`, `filter` and `reduce` are written as quantifiers and recursive counts.
- Aliasing is not modelled. The source passes live `Filter` and `SubFilter` objects into `toggleFilter` and `toggleSubFilter`; the model passes their positions. Snapshots are values, matching the copy IndexedDB makes when it stores and returns data.
- An empty `subFilters` array is truthy in the source, so it counts as a present list. The model keeps the difference (`Some([])` versus `None`), and the two behave the same in every operation.
- `src/app/app.component.ts` is an application shell with a title string and is not part of this model. `zoneless.component.spec.ts` only checks that the component can be created, so it adds no property.
- The plural rule is applied to the whole count, not its last digits. A count such as 21 would read "21 воронок". The catalogue bounds the counts (at most 5 filters and 4 stages), so this is never reached, and the model keeps the rule as written.
