/**
 * What "Apply New filter" does to the committed selection. The handler walks the
 * draft's categories and, inside each, the draft's option ids in list order, and calls
 * the store's toggle once per option id. It does not copy the draft: the committed list
 * of a category ends up as the toggle-by-toggle combination of the committed and the
 * draft lists, so membership is their symmetric difference. A draft category with an
 * empty list triggers no toggle and so leaves the committed entry as it was (absent
 * stays absent).
 */
module Merge {
  import opened Selections

  /** `n` is odd. */
  predicate Odd(n: int)
  {
    n % 2 == 1
  }

  /** Toggles the ids of `xs` into `l` one after the other, first to last. */
  function ToggleAll(l: seq<string>, xs: seq<string>): seq<string>
    decreases |xs|
  {
    if xs == [] then l else ToggleList(ToggleAll(l, xs[..|xs| - 1]), xs[|xs| - 1])
  }

  /** An id ends up in the list iff it was there XOR `xs` toggles it an odd number of times. */
  lemma {:induction false} ToggleAllParity(l: seq<string>, xs: seq<string>, x: string)
    ensures x in ToggleAll(l, xs) <==> (x in l) != Odd(multiset(xs)[x])
    decreases |xs|
  {
    if xs != [] {
      var init, last := xs[..|xs| - 1], xs[|xs| - 1];
      ToggleAllParity(l, init, x);
      var t := ToggleAll(l, init);
      assert ToggleAll(l, xs) == ToggleList(t, last);
      assert x in ToggleList(t, last) <==> (x in t) != (x == last);
      var n := multiset(init)[x];
      CountAppend(init, last, x);
      assert init + [last] == xs;
      assert multiset(xs)[x] == n + (if x == last then 1 else 0);
      OddSucc(n);
    }
  }

  lemma OddSucc(n: int)
    ensures Odd(n + 1) <==> !Odd(n)
  {
  }

  lemma CountAppend(init: seq<string>, last: string, x: string)
    ensures multiset(init + [last])[x] == multiset(init)[x] + (if x == last then 1 else 0)
  {
    assert multiset(init + [last]) == multiset(init) + multiset{last};
  }

  /**
   * The committed selection after one `setFilters(category, x)` call per `x` of `xs`, in
   * order: no call leaves it as it was, otherwise the category's list (absent reads as
   * empty) is toggled by all of `xs` and written back.
   */
  function ToggledCategory(s: Selection, category: string, xs: seq<string>): Selection
  {
    if xs == [] then s else s[category := ToggleAll(CategoryList(s, category), xs)]
  }

  /** Categories whose draft list has been walked (they are in `done`) and caused at least one toggle. */
  predicate Touched(draft: Selection, done: set<string>, c: string)
  {
    c in draft && c in done && draft[c] != []
  }

  /** The categories that `Touched` holds for. */
  function TouchedKeys(draft: Selection, done: set<string>): set<string>
  {
    set k | k in draft && Touched(draft, done, k)
  }

  /** The list of category `c` once the draft categories in `done` have been walked. */
  function MergedList(committed: Selection, draft: Selection, done: set<string>, c: string): seq<string>
  {
    if Touched(draft, done, c) then ToggleAll(CategoryList(committed, c), draft[c])
    else CategoryList(committed, c)
  }

  /** The committed selection once the draft categories in `done` have been walked. */
  function MergedOn(committed: Selection, draft: Selection, done: set<string>): Selection
  {
    map c | c in committed.Keys + TouchedKeys(draft, done) :: MergedList(committed, draft, done, c)
  }

  /** The committed selection after "Apply New filter" has walked the whole draft. */
  function Merged(committed: Selection, draft: Selection): Selection
  {
    MergedOn(committed, draft, draft.Keys)
  }

  // ---------------------------------------------------------------------------
  // The toggle loop over one category is `ToggleAll` on that category's list

  /** One more `setFilters(category, x)` call extends the toggled prefix by `x`. */
  lemma ToggledCategoryStep(s: Selection, category: string, xs: seq<string>, x: string)
    ensures Toggle(ToggledCategory(s, category, xs), category, x)
         == ToggledCategory(s, category, xs + [x])
  {
    var base := CategoryList(s, category);
    assert (xs + [x])[..|xs|] == xs;
    assert ToggleAll(base, xs + [x]) == ToggleList(ToggleAll(base, xs), x);
    assert CategoryList(ToggledCategory(s, category, xs), category) == ToggleAll(base, xs);
  }

  /** Walking one more draft category extends the merged prefix by that category. */
  lemma MergedOnStep(committed: Selection, draft: Selection, done: set<string>, c: string)
    requires c in draft && c !in done
    ensures ToggledCategory(MergedOn(committed, draft, done), c, draft[c])
         == MergedOn(committed, draft, done + {c})
  {
    if draft[c] == [] {
      MergedOnSkip(committed, draft, done, c);
    } else {
      MergedOnAdd(committed, draft, done, c);
    }
  }

  lemma MergedOnSkip(committed: Selection, draft: Selection, done: set<string>, c: string)
    requires c in draft && c !in done && draft[c] == []
    ensures MergedOn(committed, draft, done) == MergedOn(committed, draft, done + {c})
  {
    var before := MergedOn(committed, draft, done);
    var after := MergedOn(committed, draft, done + {c});
    assert TouchedKeys(draft, done) == TouchedKeys(draft, done + {c});
    assert before.Keys == after.Keys;
  }

  lemma MergedOnAdd(committed: Selection, draft: Selection, done: set<string>, c: string)
    requires c in draft && c !in done && draft[c] != []
    ensures MergedOn(committed, draft, done)[c := ToggleAll(CategoryList(committed, c), draft[c])]
         == MergedOn(committed, draft, done + {c})
  {
    var before := MergedOn(committed, draft, done);
    var after := MergedOn(committed, draft, done + {c});
    var stepped := before[c := ToggleAll(CategoryList(committed, c), draft[c])];
    assert TouchedKeys(draft, done + {c}) == TouchedKeys(draft, done) + {c};
    assert stepped.Keys == after.Keys;
    forall k | k in after.Keys ensures stepped[k] == after[k] {
      if k != c {
        assert Touched(draft, done, k) == Touched(draft, done + {c}, k);
        assert MergedList(committed, draft, done, k) == MergedList(committed, draft, done + {c}, k);
      }
    }
  }

  /** Reading a category of the merged prefix gives its merged list (absent reads as empty). */
  lemma MergedOnAt(committed: Selection, draft: Selection, done: set<string>, c: string)
    ensures CategoryList(MergedOn(committed, draft, done), c) == MergedList(committed, draft, done, c)
  {
    if c !in MergedOn(committed, draft, done) {
      assert c !in committed && !Touched(draft, done, c);
    }
  }

  // ---------------------------------------------------------------------------
  // What "Apply New filter" leaves in the committed selection

  /** Nothing has been walked: the committed selection is untouched. */
  lemma MergedOnNothing(committed: Selection, draft: Selection)
    ensures MergedOn(committed, draft, {}) == committed
  {
    var r := MergedOn(committed, draft, {});
    assert TouchedKeys(draft, {}) == {};
    assert r.Keys == committed.Keys;
  }

  /**
   * Every category that was committed stays, every draft category with a non-empty
   * list appears, and a category outside the draft keeps its exact committed list.
   */
  lemma MergedKeys(committed: Selection, draft: Selection)
    ensures Merged(committed, draft).Keys
         == committed.Keys + (set k | k in draft && draft[k] != [])
    ensures forall c :: c in committed && (c !in draft || draft[c] == []) ==>
      Merged(committed, draft)[c] == committed[c]
  {
    assert TouchedKeys(draft, draft.Keys) == (set k | k in draft && draft[k] != []);
  }

  /**
   * An option ends up selected iff it was committed XOR the draft lists it an odd
   * number of times in that category.
   */
  lemma MergedParity(committed: Selection, draft: Selection, c: string, o: string)
    ensures Selected(Merged(committed, draft), c, o)
        <==> Selected(committed, c, o) != Odd(multiset(CategoryList(draft, c))[o])
  {
    MergedOnAt(committed, draft, draft.Keys, c);
    if Touched(draft, draft.Keys, c) {
      ToggleAllParity(CategoryList(committed, c), draft[c], o);
    } else {
      assert multiset(CategoryList(draft, c))[o] == 0;
    }
  }

  lemma {:induction false} NoDupsCount(l: seq<string>, x: string)
    requires NoDups(l)
    ensures multiset(l)[x] == if x in l then 1 else 0
    decreases |l|
  {
    if l != [] {
      assert l == [l[0]] + l[1..];
      assert NoDups(l[1..]) by {
        forall i, j | 0 <= i < j < |l[1..]| ensures l[1..][i] != l[1..][j] {
          assert l[1..][i] == l[i + 1] && l[1..][j] == l[j + 1];
        }
      }
      assert l[0] !in l[1..] by {
        forall k | 0 <= k < |l[1..]| ensures l[1..][k] != l[0] {
          assert l[1..][k] == l[k + 1];
        }
      }
      NoDupsCount(l[1..], x);
    }
  }

  /**
   * With duplicate-free draft lists, an option ends up selected iff exactly one of the
   * old committed selection and the draft selects it.
   */
  lemma MergedIsSymmetricDifference(committed: Selection, draft: Selection)
    requires NoDupSelection(draft)
    ensures forall c, o :: Selected(Merged(committed, draft), c, o)
                      <==> Selected(committed, c, o) != Selected(draft, c, o)
  {
    forall c, o
      ensures Selected(Merged(committed, draft), c, o)
          <==> Selected(committed, c, o) != Selected(draft, c, o)
    {
      MergedSymmetricDifferenceAt(committed, draft, c, o);
    }
  }

  lemma MergedSymmetricDifferenceAt(committed: Selection, draft: Selection, c: string, o: string)
    requires NoDups(CategoryList(draft, c))
    ensures Selected(Merged(committed, draft), c, o)
        <==> Selected(committed, c, o) != Selected(draft, c, o)
  {
    MergedParity(committed, draft, c, o);
    NoDupsCount(CategoryList(draft, c), o);
  }

  /** From an empty committed selection, "Apply New filter" selects exactly what the draft does. */
  lemma MergedFromEmpty(draft: Selection)
    requires NoDupSelection(draft)
    ensures SameSelection(Merged(map[], draft), draft)
  {
    MergedIsSymmetricDifference(map[], draft);
  }

  /**
   * "Apply New filter" leaves the committed selection selecting what the draft selects
   * iff nothing was committed before; otherwise some option is off by the symmetric
   * difference.
   */
  lemma MergedMatchesDraftIff(committed: Selection, draft: Selection)
    requires NoDupSelection(draft)
    ensures SameSelection(Merged(committed, draft), draft) <==> NothingSelected(committed)
  {
    MergedIsSymmetricDifference(committed, draft);
    if !NothingSelected(committed) {
      var c, o :| Selected(committed, c, o);
      assert Selected(Merged(committed, draft), c, o) != Selected(draft, c, o);
    }
  }

  /** Merging keeps every category free of duplicate ids when both sides are. */
  lemma {:induction false} ToggleAllKeepsNoDups(l: seq<string>, xs: seq<string>)
    requires NoDups(l)
    ensures NoDups(ToggleAll(l, xs))
    decreases |xs|
  {
    if xs != [] {
      ToggleAllKeepsNoDups(l, xs[..|xs| - 1]);
      ToggleListShape(ToggleAll(l, xs[..|xs| - 1]), xs[|xs| - 1]);
    }
  }

  lemma MergedKeepsNoDups(committed: Selection, draft: Selection)
    requires NoDupSelection(committed)
    ensures NoDupSelection(Merged(committed, draft))
  {
    forall c | c in Merged(committed, draft) ensures NoDups(Merged(committed, draft)[c]) {
      if Touched(draft, draft.Keys, c) {
        ToggleAllKeepsNoDups(CategoryList(committed, c), draft[c]);
      }
    }
  }
}
