/**
 * The filter modal: a draft selection edited by the checkboxes, a confirmation prompt
 * in front of the commit, and the selector's visibility flag that the page owning the
 * modal passes in (`isOpen`, closed through `onClose`). Each handler is one atomic
 * transition.
 */
module Modal {
  import opened Selections
  import opened Merge
  import opened Store

  class FilterModal {
    /** The committed store the modal reads and writes. */
    const store: FilterStore
    /** The draft selection (`tempFilters`). */
    var tempFilters: Selection
    /** Whether the "Do you want to apply new filter" prompt is shown. */
    var isConfirmationOpen: bool
    /** Whether the selector itself is shown. */
    var isOpen: bool

    /** Neither the committed selection nor the draft lists an option id twice in a category. */
    ghost predicate Valid()
      reads this, store
    {
      store.Valid() && NoDupSelection(tempFilters)
    }

    /**
     * The modal is mounted once, with the selector closed: the draft is seeded from the
     * committed selection at that moment and the prompt is closed.
     */
    constructor (store: FilterStore)
      requires store.Valid()
      ensures Valid()
      ensures this.store == store && store.filters == old(store.filters)
      ensures tempFilters == store.filters
      ensures !isConfirmationOpen && !isOpen
    {
      this.store := store;
      tempFilters := store.filters;
      isConfirmationOpen := false;
      isOpen := false;
    }

    /** Whether an option's checkbox is checked: its id is in the draft list of its category. */
    function IsChecked(category: string, optionId: string): (checked: bool)
      reads this
      ensures checked <==> Selected(tempFilters, category, optionId)
      ensures category !in tempFilters ==> !checked
    {
      category in tempFilters && optionId in tempFilters[category]
    }

    /**
     * A checkbox change flips the option in the draft only; the committed selection, the
     * prompt and the selector stay as they were. The checkboxes are only shown while the
     * selector is open.
     */
    method HandleCheckboxChange(category: string, optionId: string)
      requires Valid() && isOpen
      modifies this
      ensures Valid()
      ensures tempFilters == Toggle(old(tempFilters), category, optionId)
      ensures forall x :: IsChecked(category, x) <==> old(IsChecked(category, x)) != (x == optionId)
      ensures forall c :: c in old(tempFilters) && c != category ==> tempFilters[c] == old(tempFilters)[c]
      ensures store.filters == old(store.filters)
      ensures isConfirmationOpen == old(isConfirmationOpen) && isOpen == old(isOpen)
    {
      ToggleKeepsNoDups(tempFilters, category, optionId);
      tempFilters := Toggle(tempFilters, category, optionId);
    }

    /** "Apply", a button of the open selector, only opens the confirmation prompt. */
    method RequestApply()
      requires isOpen
      modifies this
      ensures isConfirmationOpen
      ensures tempFilters == old(tempFilters) && isOpen == old(isOpen)
      ensures store.filters == old(store.filters)
    {
      isConfirmationOpen := true;
    }

    /**
     * The "Apply New filter" button of the prompt: one store toggle per option id of the draft, category by
     * category, then the prompt and the selector close. The committed selection becomes
     * the per-category symmetric difference of the old one and the draft; the draft is
     * kept as it was and is not re-seeded. The button is only shown while the prompt is
     * open.
     */
    method HandleApplyFilters()
      requires Valid() && isConfirmationOpen
      modifies this, store
      ensures Valid()
      ensures store.filters == Merged(old(store.filters), tempFilters)
      ensures forall c, o :: Selected(store.filters, c, o)
                        <==> Selected(old(store.filters), c, o) != Selected(tempFilters, c, o)
      ensures NothingSelected(old(store.filters)) ==> SameSelection(store.filters, tempFilters)
      ensures tempFilters == old(tempFilters)
      ensures !isConfirmationOpen && !isOpen
    {
      ghost var committed := store.filters;
      var draft := tempFilters;
      var pending := draft.Keys;
      ghost var done: set<string> := {};
      MergedOnNothing(committed, draft);
      while pending != {}
        invariant pending + done == draft.Keys && pending !! done
        invariant store.Valid()
        invariant store.filters == MergedOn(committed, draft, done)
        modifies store
        decreases pending
      {
        var category :| category in pending;
        ApplyCategory(category, draft[category]);
        MergedOnStep(committed, draft, done, category);
        pending := pending - {category};
        done := done + {category};
      }
      store.ApplyFilters();
      isConfirmationOpen := false;
      isOpen := false;
      MergedIsSymmetricDifference(committed, draft);
      MergedFromEmpty(draft);
    }

    /**
     * The inner walk of "Apply New filter": one store toggle per option id of `options`,
     * first to last, all in `category`.
     */
    method ApplyCategory(category: string, options: seq<string>)
      requires store.Valid()
      modifies store
      ensures store.Valid()
      ensures store.filters == ToggledCategory(old(store.filters), category, options)
    {
      ghost var before := store.filters;
      var i := 0;
      while i < |options|
        invariant 0 <= i <= |options|
        invariant store.Valid()
        invariant store.filters == ToggledCategory(before, category, options[..i])
      {
        ghost var prefix := options[..i];
        assert prefix + [options[i]] == options[..i + 1];
        ToggledCategoryStep(before, category, prefix, options[i]);
        store.SetFilters(category, options[i]);
        assert store.filters == ToggledCategory(before, category, options[..i + 1]);
        i := i + 1;
      }
      assert options[..i] == options;
    }

    /**
     * "Use old filter": the draft is re-seeded from the committed selection, which is
     * left alone, and the prompt and the selector close. The button is only shown while
     * the prompt is open.
     */
    method HandleKeepOldFilters()
      requires Valid() && isConfirmationOpen
      modifies this
      ensures Valid()
      ensures tempFilters == store.filters && store.filters == old(store.filters)
      ensures !isConfirmationOpen && !isOpen
    {
      tempFilters := store.filters;
      isConfirmationOpen := false;
      isOpen := false;
    }

    /** Dismissing the open prompt closes it and changes nothing else. */
    method DismissConfirmation()
      requires isConfirmationOpen
      modifies this
      ensures !isConfirmationOpen
      ensures tempFilters == old(tempFilters) && isOpen == old(isOpen)
      ensures store.filters == old(store.filters)
    {
      isConfirmationOpen := false;
    }

    /**
     * "Clear all parameters": both the committed selection and the draft become empty;
     * the prompt and the selector keep their state. The link is part of the open selector.
     */
    method HandleClearFilters()
      requires Valid() && isOpen
      modifies this, store
      ensures Valid()
      ensures store.filters == map[] && tempFilters == map[]
      ensures NothingSelected(store.filters) && NothingSelected(tempFilters)
      ensures isConfirmationOpen == old(isConfirmationOpen) && isOpen == old(isOpen)
    {
      store.ClearFilters();
      tempFilters := map[];
    }

    /** The page's "Open Modal" button shows the selector; the draft is not re-seeded. */
    method Open()
      modifies this
      ensures isOpen
      ensures tempFilters == old(tempFilters) && isConfirmationOpen == old(isConfirmationOpen)
      ensures store.filters == old(store.filters)
    {
      isOpen := true;
    }

    /** Closing the open selector hides it; the draft and the committed selection are kept. */
    method Close()
      requires isOpen
      modifies this
      ensures !isOpen
      ensures tempFilters == old(tempFilters) && isConfirmationOpen == old(isConfirmationOpen)
      ensures store.filters == old(store.filters)
    {
      isOpen := false;
    }
  }
}
