/**
 * Walkthroughs of the filter modal driven only through the store's and the modal's
 * contracts, in the order a user would click: checkboxes, "Apply" and "Clear all
 * parameters" only while the selector is open, the prompt's buttons only while the
 * prompt is open.
 */
module Scenarios {
  import opened Selections
  import opened Merge
  import opened Store
  import opened Modal

  /**
   * From an empty store: select Color/Red, deselect it again, select Size/M, then
   * "Apply" and "Apply New filter". Color keeps an empty list in the draft and never
   * reaches the committed selection, which holds Size/M only.
   */
  method FirstCommit()
  {
    var store := new FilterStore();
    var modal := new FilterModal(store);
    modal.Open();
    assert ToggleList([], "Red") == ["Red"];
    modal.HandleCheckboxChange("Color", "Red");
    assert modal.tempFilters == map["Color" := ["Red"]];
    assert RemoveAll(["Red"], "Red") == [];
    modal.HandleCheckboxChange("Color", "Red");
    assert modal.tempFilters == map["Color" := []];
    assert ToggleList([], "M") == ["M"];
    modal.HandleCheckboxChange("Size", "M");
    assert modal.tempFilters == map["Color" := [], "Size" := ["M"]];
    modal.RequestApply();
    assert modal.isConfirmationOpen && store.filters == map[];
    modal.HandleApplyFilters();
    EmptiedCategoryIsNotCommitted();
    assert store.filters == map["Size" := ["M"]];
    assert !modal.isOpen && !modal.isConfirmationOpen;
  }

  /**
   * Committing a draft whose Color list was emptied from an empty store: no toggle
   * reaches Color, so it stays absent.
   */
  lemma EmptiedCategoryIsNotCommitted()
    ensures Merged(map[], map["Color" := [], "Size" := ["M"]]) == map["Size" := ["M"]]
  {
    var draft: Selection := map["Color" := [], "Size" := ["M"]];
    MergedKeys(map[], draft);
    assert (set k | k in draft && draft[k] != []) == {"Size"};
    assert ToggleList([], "M") == ["M"];
    assert ToggleAll([], ["M"]) == ["M"];
  }

  /**
   * Committing a draft that still lists Red and adds Blue on top of a committed Red:
   * Red is toggled off again and only Blue stays.
   */
  lemma ReappliedOptionIsDropped()
    ensures Merged(map["Color" := ["Red"]], map["Color" := ["Red", "Blue"]]) == map["Color" := ["Blue"]]
  {
    var committed: Selection := map["Color" := ["Red"]];
    var draft: Selection := map["Color" := ["Red", "Blue"]];
    MergedKeys(committed, draft);
    assert (set k | k in draft && draft[k] != []) == {"Color"};
    assert RemoveAll(["Red"], "Red") == [];
    assert ToggleAll(["Red"], ["Red"]) == [];
    assert ["Red", "Blue"][..1] == ["Red"];
    assert ToggleAll(["Red"], ["Red", "Blue"]) == ["Blue"];
  }

  /**
   * Commit Color/Red, reopen (the draft still shows Red checked), add Color/Blue and
   * confirm again: the toggles deselect Red, so only Blue stays committed. Choosing
   * "Use old filter" instead would have kept Red and re-seeded the draft from it.
   */
  method SecondCommit()
  {
    var store := new FilterStore();
    var modal := new FilterModal(store);
    modal.Open();
    modal.HandleCheckboxChange("Color", "Red");
    modal.RequestApply();
    modal.HandleApplyFilters();
    assert Selected(store.filters, "Color", "Red");
    modal.Open();
    assert modal.IsChecked("Color", "Red");
    modal.HandleCheckboxChange("Color", "Blue");
    assert modal.IsChecked("Color", "Red") && modal.IsChecked("Color", "Blue");
    modal.RequestApply();
    modal.HandleApplyFilters();
    assert !Selected(store.filters, "Color", "Red");
    assert Selected(store.filters, "Color", "Blue");

    var keptOld := new FilterStore();
    var other := new FilterModal(keptOld);
    other.Open();
    other.HandleCheckboxChange("Color", "Red");
    other.RequestApply();
    other.HandleApplyFilters();
    other.Open();
    other.HandleCheckboxChange("Color", "Blue");
    other.RequestApply();
    other.HandleKeepOldFilters();
    assert Selected(keptOld.filters, "Color", "Red") && !Selected(keptOld.filters, "Color", "Blue");
    assert other.IsChecked("Color", "Red") && !other.IsChecked("Color", "Blue");
  }

  /**
   * Select Color/Red, press "Apply", dismiss the prompt, then "Clear all parameters" and
   * close the selector: the draft and the committed selection are both empty.
   */
  method ClearAfterDismiss()
  {
    var store := new FilterStore();
    var modal := new FilterModal(store);
    modal.Open();
    modal.HandleCheckboxChange("Color", "Red");
    modal.RequestApply();
    modal.DismissConfirmation();
    assert modal.IsChecked("Color", "Red") && modal.isOpen;
    modal.HandleClearFilters();
    modal.Close();
    assert !modal.IsChecked("Color", "Red") && NothingSelected(store.filters);
    assert !modal.isOpen && !modal.isConfirmationOpen;
  }
}
