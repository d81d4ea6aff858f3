# Filter selection: committed store, draft and commit gate

This project models the filter-selection state machine of a small React application.
The user picks options in filter categories inside a full-screen modal. Picks go to a
draft first. A confirmation prompt then either commits the draft into a process-wide
store or throws it away.

- `selections.dfy` (module `Selections`): a selection is a map from a category id to a
  list of option ids. The module defines the single toggle used by both the store and
  the draft: drop the option if the list includes it, otherwise append it. An absent
  category reads as an empty list. Lemmas cover order preservation, freedom from
  duplicates, and toggling twice.
- `merge.dfy` (module `Merge`): the specification of "Apply New filter" (`Merged`) and
  what it leaves in the committed selection.
- `filter_store.dfy` (module `Store`): class `FilterStore` with the one mutable field
  `filters` and the actions `SetFilters`, `ApplyFilters`, `ResetFilters` and
  `ClearFilters`.
- `filter_modal.dfy` (module `Modal`): class `FilterModal` with the draft `tempFilters`,
  the prompt flag `isConfirmationOpen` and the selector flag `isOpen`. It holds a
  reference to the store. Each handler is one method, and each requires the flag of the
  dialog that shows its control: the checkboxes, "Apply", "Clear all parameters" and the
  selector's close need `isOpen`; "Use old filter", "Apply New filter" and the prompt's
  close need `isConfirmationOpen`.
- `scenarios.dfy` (module `Scenarios`): three click sequences verified against the class
  contracts, plus two concrete commit results.

Both classes keep an invariant `Valid()`: no category lists an option id twice. The
store starts empty, every toggle preserves the invariant, and the draft is only ever
seeded from the store, toggled, or emptied.

## Behaviour worth knowing

- "Apply New filter" (`FilterModal.HandleApplyFilters`) does not copy the draft into the store. It calls the store's
  toggle once for every option id in every draft list. A category's committed list
  therefore ends up as the symmetric difference of the old committed list and the draft
  list. `Merge.MergedMatchesDraftIff` proves that the committed selection matches the
  draft exactly when nothing was committed before. `Scenarios.ReappliedOptionIsDropped`
  shows the effect: committed Red plus a draft of Red and Blue commits Blue only.
- The draft is seeded once, when the modal is mounted. Reopening the selector does not
  re-seed it, and neither does committing (`FilterModal.Open`, `FilterModal.HandleApplyFilters`).
- Closing the selector by its close button or overlay only hides it. The draft is kept
  rather than discarded (`FilterModal.Close`).
- A fully deselected category keeps an empty list; the key is never removed.
  `Selections.Toggle` always leaves the key present. For that reason the lemmas compare
  selections by membership (`SameSelection`), not by list equality.

## Model

| member | source | states |
|---|---|---|
| Selections.RemoveAll | src/store/filterStore/filterStore.ts:16 | the filtered list holds exactly the ids of the input other than the removed one |
| Selections.ToggleList | src/store/filterStore/filterStore.ts:14-17 | an id is in the new list iff it was in the old list XOR it is the toggled option |
| Selections.Toggle | src/store/filterStore/filterStore.ts:13-18 | the toggled category is always present afterwards; the option's membership in it flips, with an absent category counting as empty; every other category keeps its exact list and its membership |
| Selections.ToggleListShape | src/store/filterStore/filterStore.ts:15-17 | adding appends at the end; removing gives a subsequence of the old list with the same ids and counts except the option; a duplicate-free list stays duplicate-free |
| Selections.ToggleListTwice | src/store/filterStore/filterStore.ts:15-17 | toggling one option twice restores the membership of every id; when the option was absent, it restores the exact list |
| Selections.ToggleKeepsNoDups | src/store/filterStore/filterStore.ts:14-18 | toggling keeps every category free of duplicate ids |
| Selections.ToggleTwiceSameSelection | src/store/filterStore/filterStore.ts:12-19 | toggling the same (category, option) twice selects exactly what was selected before |
| Selections.ToggleTwiceIdentity | src/store/filterStore/filterStore.ts:14-18 | toggling twice gives back the same mapping when the category was present without the option; from an absent category it leaves an empty list behind |
| Merge.ToggleAllParity | src/components/FilterModal/FilterModal.tsx:67-69 | after a run of toggles on one list, an id is present iff it was present XOR it was toggled an odd number of times |
| Merge.ToggledCategoryStep | src/components/FilterModal/FilterModal.tsx:67-69 | one more store toggle extends the walked prefix of a draft list by one option |
| Merge.MergedOnStep | src/components/FilterModal/FilterModal.tsx:66-70 | walking one more draft category extends the merged prefix by exactly that category, in any order of categories |
| Merge.MergedOnNothing | src/components/FilterModal/FilterModal.tsx:66 | before any draft category is walked, the committed selection is unchanged |
| Merge.MergedKeys | src/components/FilterModal/FilterModal.tsx:66-70 | the committed categories afterwards are the old ones plus the draft categories with a non-empty list; a category the draft does not touch keeps its exact list |
| Merge.MergedParity | src/components/FilterModal/FilterModal.tsx:66-70 | an option ends up committed iff it was committed XOR the draft lists it an odd number of times in that category |
| Merge.MergedIsSymmetricDifference | src/components/FilterModal/FilterModal.tsx:66-70 | with duplicate-free draft lists, an option ends up committed iff exactly one of the old committed selection and the draft selects it |
| Merge.MergedFromEmpty | src/components/FilterModal/FilterModal.tsx:66-70 | from an empty committed selection, the committed result selects exactly what the draft selects |
| Merge.MergedMatchesDraftIff | src/components/FilterModal/FilterModal.tsx:66-70 | the committed result selects exactly what the draft selects iff nothing was committed before |
| Merge.MergedKeepsNoDups | src/components/FilterModal/FilterModal.tsx:66-70 | committing keeps every committed category free of duplicate ids |
| Store.FilterStore.constructor | src/store/filterStore/filterStore.ts:10-11 | the store starts with an empty mapping, so no category has any selected option |
| Store.FilterStore.SetFilters | src/store/filterStore/filterStore.ts:12-19 | the new filters are the toggle of the old ones: the category is present, the option's membership flips, all other categories keep their lists, and no duplicate appears |
| Store.FilterStore.ApplyFilters | src/store/filterStore/filterStore.ts:20 | changes no state |
| Store.FilterStore.ResetFilters | src/store/filterStore/filterStore.ts:21 | filters become empty whatever they held |
| Store.FilterStore.ClearFilters | src/store/filterStore/filterStore.ts:22 | filters become empty whatever they held |
| Modal.FilterModal.constructor | src/components/FilterModal/FilterModal.tsx:44-46 | the draft is seeded from the committed filters at mount; the prompt and the selector start closed |
| Modal.FilterModal.IsChecked | src/components/FilterModal/FilterModal.tsx:124-126 | a checkbox is checked iff its option id is in the draft list of its category; an absent category means unchecked |
| Modal.FilterModal.HandleCheckboxChange | src/components/FilterModal/FilterModal.tsx:48-63 | only with the selector open: the draft becomes its toggle, the option's checked state flips, other draft categories keep their lists, and the committed filters, prompt and selector are unchanged |
| Modal.FilterModal.RequestApply | src/components/FilterModal/FilterModal.tsx:142-152 | only with the selector open: opens the prompt; the draft, the committed filters and the selector are unchanged |
| Modal.FilterModal.HandleApplyFilters | src/components/FilterModal/FilterModal.tsx:65-74 | only with the prompt open: the committed filters become `Merged(old committed, draft)`, i.e. per option the XOR of old committed and draft membership (draft membership when nothing was committed); the draft is kept; the prompt and the selector close |
| Modal.FilterModal.ApplyCategory | src/components/FilterModal/FilterModal.tsx:67-69 | toggling one draft list into the store, option by option, leaves that category's committed list toggled by every option in order and nothing else changed |
| Modal.FilterModal.HandleKeepOldFilters | src/components/FilterModal/FilterModal.tsx:80-84 | only with the prompt open: the draft becomes the committed filters, which stay unchanged; the prompt and the selector close |
| Modal.FilterModal.DismissConfirmation | src/components/FilterModal/FilterModal.tsx:163-166 | only with the prompt open: closes the prompt; the draft, the committed filters and the selector are unchanged |
| Modal.FilterModal.HandleClearFilters | src/components/FilterModal/FilterModal.tsx:86-89 | only with the selector open: both the committed filters and the draft become empty; the prompt and the selector keep their state |
| Modal.FilterModal.Open | src/components/App/App.tsx:22 | shows the selector without re-seeding the draft; nothing else changes |
| Modal.FilterModal.Close | src/components/FilterModal/FilterModal.tsx:93-96 | only with the selector open: hides the selector; the draft and the committed filters are kept |
| Scenarios.EmptiedCategoryIsNotCommitted | src/components/FilterModal/FilterModal.tsx:66-70 | a draft {Color: [], Size: [M]} committed onto an empty store yields exactly {Size: [M]} |
| Scenarios.ReappliedOptionIsDropped | src/components/FilterModal/FilterModal.tsx:66-70 | a draft {Color: [Red, Blue]} committed onto {Color: [Red]} yields exactly {Color: [Blue]} |

## Left out

- Loading the catalog (`fetchFilterData`, `useQuery`, the "Loading..." early return) is left out. It is network I/O and asynchronous library state, and the handlers are only reachable once it has loaded.
- All rendering, Chakra layout and CSS are left out. The checkbox state is modelled only as the `IsChecked` query.
- Which dialog a control belongs to is modelled as a precondition on its handler (`isOpen` for the selector, `isConfirmationOpen` for the prompt). That the prompt, stacked over the selector, keeps the selector's controls from being clicked while it is shown is not modelled.
- The page's "Open Modal" button (src/components/App/App.tsx:22) is always rendered, so `Open` has no precondition; opening an open selector changes nothing.
- Of the page component, only the selector's open flag is modelled, as the field `isOpen` with `Open` and `Close`. The query client and the printing of the committed filters are not part of this model.
- React and zustand scheduling is left out. Each handler is one atomic, synchronous transition, and the committed filters a handler reads are the store's current value.
- The order in which `Object.keys` lists the draft categories is not modelled. `HandleApplyFilters` walks them in an arbitrary order, and the proved result does not depend on that order.
- JavaScript object-key quirks, such as integer-like keys or `__proto__`, are not modelled; a category id is an arbitrary string key of a map.
- The catalog item type is not part of this model. Toggled ids are not checked against the catalog, and neither does the code check them.
- That `clearFilters` is missing from the store's TypeScript interface is a typing matter only and is not modelled. Its runtime behaviour (`Store.FilterStore.ClearFilters`) is.
