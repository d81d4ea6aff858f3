/**
 * The committed filter store: one process-wide object whose single field `filters`
 * is replaced by each of its actions.
 */
module Store {
  import opened Selections

  class FilterStore {
    /** The committed selection read by every consumer. */
    var filters: Selection

    /** No category of the committed selection lists an option id twice. */
    ghost predicate Valid()
      reads this
    {
      NoDupSelection(filters)
    }

    /** The store is created with an empty mapping: no category has any option selected. */
    constructor ()
      ensures Valid()
      ensures filters == map[]
      ensures NothingSelected(filters)
    {
      filters := map[];
    }

    /**
     * Flips whether `optionId` is selected in `category` (an absent category counts as
     * empty); every other category keeps its exact list, and `category` is present
     * afterwards even when its last option was just removed.
     */
    method SetFilters(category: string, optionId: string)
      requires Valid()
      modifies this
      ensures Valid()
      ensures filters == Toggle(old(filters), category, optionId)
      ensures category in filters
      ensures forall x :: Selected(filters, category, x)
                     <==> Selected(old(filters), category, x) != (x == optionId)
      ensures forall c :: c in old(filters) && c != category ==> c in filters && filters[c] == old(filters)[c]
    {
      ToggleKeepsNoDups(filters, category, optionId);
      filters := Toggle(filters, category, optionId);
    }

    /** The hook run after a commit; it does nothing. */
    method ApplyFilters()
      ensures filters == old(filters)
    {
    }

    /** Empties the committed selection, whatever it held. */
    method ResetFilters()
      modifies this
      ensures Valid()
      ensures filters == map[]
      ensures NothingSelected(filters)
    {
      filters := map[];
    }

    /** Same effect as `ResetFilters`: the committed selection becomes empty. */
    method ClearFilters()
      modifies this
      ensures Valid()
      ensures filters == map[]
      ensures NothingSelected(filters)
    {
      filters := map[];
    }
  }
}
