/**
 * Filter selections as the store and the filter modal hold them: a mapping from a
 * category id to the list of option ids selected in it (`Record<string, string[]>`),
 * and the single toggle that both the committed store and the draft apply to it.
 */
module Selections {

  /** Category id to the ordered list of selected option ids. */
  type Selection = map<string, seq<string>>

  /** The list kept for `category`; an absent key reads as the empty list. */
  function CategoryList(s: Selection, category: string): seq<string>
  {
    if category in s then s[category] else []
  }

  /** Whether `option` is selected in `category`; an absent category selects nothing. */
  predicate Selected(s: Selection, category: string, option: string)
  {
    option in CategoryList(s, category)
  }

  /** Two selections select the same options in every category, whatever their lists look like. */
  ghost predicate SameSelection(a: Selection, b: Selection)
  {
    forall c, o :: Selected(a, c, o) <==> Selected(b, c, o)
  }

  /** No category selects any option (an empty mapping, or only empty lists). */
  ghost predicate NothingSelected(s: Selection)
  {
    forall c, o :: !Selected(s, c, o)
  }

  /** No option id occurs twice in `l`. */
  ghost predicate NoDups(l: seq<string>)
  {
    forall i, j :: 0 <= i < j < |l| ==> l[i] != l[j]
  }

  /** No category lists an option id twice. */
  ghost predicate NoDupSelection(s: Selection)
  {
    forall c :: c in s ==> NoDups(s[c])
  }

  /** `a` is `b` with some elements left out and the rest in their original order. */
  ghost predicate IsSubsequence(a: seq<string>, b: seq<string>)
    decreases |b|
  {
    if a == [] then true
    else if b == [] then false
    else if a[0] == b[0] then IsSubsequence(a[1..], b[1..])
    else IsSubsequence(a, b[1..])
  }

  /** `l.filter(id => id !== option)`: every occurrence of `option` dropped. */
  function RemoveAll(l: seq<string>, option: string): (r: seq<string>)
    ensures forall x :: x in r <==> x in l && x != option
  {
    if l == [] then [] else (if l[0] == option then [] else [l[0]]) + RemoveAll(l[1..], option)
  }

  /**
   * The list update of `setFilters` and of the draft checkbox handler: drop `option`
   * when the list includes it, otherwise append it at the end.
   */
  function ToggleList(l: seq<string>, option: string): (r: seq<string>)
    ensures forall x :: x in r <==> (x in l) != (x == option)
  {
    if option in l then RemoveAll(l, option) else l + [option]
  }

  /**
   * The whole-mapping update of `setFilters` and of the draft checkbox handler: the
   * category's list (absent reads as empty) is toggled and written back under
   * `category`, every other entry is copied unchanged.
   */
  function Toggle(s: Selection, category: string, option: string): (r: Selection)
    ensures r.Keys == s.Keys + {category}
    ensures forall c :: c in s && c != category ==> r[c] == s[c]
    ensures forall x :: Selected(r, category, x) <==> Selected(s, category, x) != (x == option)
    ensures forall c, x :: c != category ==> (Selected(r, c, x) <==> Selected(s, c, x))
  {
    s[category := ToggleList(CategoryList(s, category), option)]
  }

  // ---------------------------------------------------------------------------
  // Removal keeps order; toggling keeps lists duplicate-free

  lemma {:induction false} RemoveAllKeepsOrder(l: seq<string>, option: string)
    ensures IsSubsequence(RemoveAll(l, option), l)
    decreases |l|
  {
    if l != [] {
      RemoveAllKeepsOrder(l[1..], option);
      var rest := RemoveAll(l[1..], option);
      if l[0] == option {
        assert RemoveAll(l, option) == rest;
        if rest != [] {
          assert rest[0] in rest;
        }
      } else {
        assert RemoveAll(l, option) == [l[0]] + rest;
        assert ([l[0]] + rest)[1..] == rest;
      }
    }
  }

  lemma {:induction false} RemoveAllCount(l: seq<string>, option: string)
    ensures multiset(RemoveAll(l, option)) == multiset(l)[option := 0]
    decreases |l|
  {
    if l != [] {
      assert l == [l[0]] + l[1..];
      RemoveAllCount(l[1..], option);
    }
  }

  lemma {:induction false} RemoveAllAppend(a: seq<string>, b: seq<string>, option: string)
    ensures RemoveAll(a + b, option) == RemoveAll(a, option) + RemoveAll(b, option)
    decreases |a|
  {
    if a != [] {
      var head := if a[0] == option then [] else [a[0]];
      assert (a + b)[0] == a[0];
      assert (a + b)[1..] == a[1..] + b;
      assert RemoveAll(a + b, option) == head + RemoveAll(a[1..] + b, option);
      RemoveAllAppend(a[1..], b, option);
      assert RemoveAll(a, option) == head + RemoveAll(a[1..], option);
    } else {
      assert a + b == b;
    }
  }

  lemma {:induction false} RemoveAllAbsent(l: seq<string>, option: string)
    requires option !in l
    ensures RemoveAll(l, option) == l
    decreases |l|
  {
    if l != [] {
      assert l[0] != option;
      assert l == [l[0]] + l[1..];
      RemoveAllAbsent(l[1..], option);
    }
  }

  lemma NoDupsCons(x: string, l: seq<string>)
    requires NoDups(l) && x !in l
    ensures NoDups([x] + l)
  {
    var r := [x] + l;
    forall i, j | 0 <= i < j < |r| ensures r[i] != r[j] {
      assert r[j] == l[j - 1];
      if i > 0 {
        assert r[i] == l[i - 1];
      }
    }
  }

  lemma {:induction false} RemoveAllKeepsNoDups(l: seq<string>, option: string)
    requires NoDups(l)
    ensures NoDups(RemoveAll(l, option))
    decreases |l|
  {
    if l != [] {
      assert l == [l[0]] + l[1..];
      assert NoDups(l[1..]) by {
        forall i, j | 0 <= i < j < |l[1..]| ensures l[1..][i] != l[1..][j] {
          assert l[1..][i] == l[i + 1] && l[1..][j] == l[j + 1];
        }
      }
      RemoveAllKeepsNoDups(l[1..], option);
      if l[0] != option {
        assert l[0] !in l[1..] by {
          forall k | 0 <= k < |l[1..]| ensures l[1..][k] != l[0] {
            assert l[1..][k] == l[k + 1];
          }
        }
        NoDupsCons(l[0], RemoveAll(l[1..], option));
      }
    }
  }

  /**
   * Adding appends the option at the end; removing drops exactly that option and keeps
   * the other ids, with their counts, in their relative order; no duplicate is introduced.
   */
  lemma ToggleListShape(l: seq<string>, option: string)
    ensures option !in l ==> ToggleList(l, option) == l + [option]
    ensures option in l ==> IsSubsequence(ToggleList(l, option), l)
    ensures option in l ==> multiset(ToggleList(l, option)) == multiset(l)[option := 0]
    ensures NoDups(l) ==> NoDups(ToggleList(l, option))
  {
    if option in l {
      RemoveAllKeepsOrder(l, option);
      RemoveAllCount(l, option);
      if NoDups(l) {
        RemoveAllKeepsNoDups(l, option);
      }
    } else if NoDups(l) {
      var r := l + [option];
      forall i, j | 0 <= i < j < |r| ensures r[i] != r[j] {
        if j == |l| {
          assert r[i] == l[i];
        }
      }
    }
  }

  /**
   * Toggling the same option twice restores its membership (and every other option's);
   * when the option was absent, the exact list comes back.
   */
  lemma ToggleListTwice(l: seq<string>, option: string)
    ensures forall x :: x in ToggleList(ToggleList(l, option), option) <==> x in l
    ensures option !in l ==> ToggleList(ToggleList(l, option), option) == l
  {
    if option !in l {
      RemoveAllAppend(l, [option], option);
      RemoveAllAbsent(l, option);
      assert RemoveAll([option], option) == [];
    }
  }

  /** Toggling keeps every category free of duplicate ids. */
  lemma ToggleKeepsNoDups(s: Selection, category: string, option: string)
    requires NoDupSelection(s)
    ensures NoDupSelection(Toggle(s, category, option))
  {
    ToggleListShape(CategoryList(s, category), option);
  }

  /** Toggling `(category, option)` twice selects exactly what was selected before. */
  lemma ToggleTwiceSameSelection(s: Selection, category: string, option: string)
    ensures SameSelection(Toggle(Toggle(s, category, option), category, option), s)
  {
    ToggleListTwice(CategoryList(s, category), option);
  }

  /**
   * When the category is present and does not list the option, toggling twice gives the
   * very same mapping back; when the category was absent it comes back as an empty list.
   */
  lemma ToggleTwiceIdentity(s: Selection, category: string, option: string)
    ensures category in s && option !in s[category] ==>
      Toggle(Toggle(s, category, option), category, option) == s
    ensures category !in s ==>
      Toggle(Toggle(s, category, option), category, option) == s[category := []]
  {
    ToggleListTwice(CategoryList(s, category), option);
    if category !in s {
      assert ToggleList([], option) == [option];
      assert RemoveAll([option], option) == [];
    }
  }
}
