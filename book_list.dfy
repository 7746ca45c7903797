/** The subject picker of `Frontend/src/Components/Public/BookList.jsx`:
    the selection it keeps while the semester changes, and the merge of the
    selection into the stored cart. Selections are keyed by the subject code
    as a string, which is what an object key and `Object.entries` give. */
module BookList {
  import opened Common
  import opened Text
  import opened Lists
  import opened Sorting
  import opened Models
  import opened Cart

  /** `user?.branch || "CME"`. */
  function ShownBranch(userBranch: Option<string>): (b: string)
    ensures b != []
    ensures userBranch.Some? && userBranch.value != [] ==> b == userBranch.value
    ensures userBranch.None? || userBranch.value == [] ==> b == "CME"
  {
    if userBranch.Some? && userBranch.value != [] then userBranch.value else "CME"
  }

  /** `handleSubjectToggle` on the `{ [code]: name }` selection: a code whose
      stored name is truthy is deleted, otherwise the code is set to `name`. */
  function Toggle(selected: map<string, string>, code: string, name: string): (r: map<string, string>)
    ensures code in selected && selected[code] != [] ==> code !in r
    ensures !(code in selected && selected[code] != []) ==> code in r && r[code] == name
    ensures forall k :: k != code ==> (k in r <==> k in selected)
    ensures forall k :: k != code && k in r ==> r[k] == selected[k]
  {
    if code in selected && selected[code] != [] then selected - {code} else selected[code := name]
  }

  /** Toggling a subject twice, under its own (non-empty) name, restores the
      selection. */
  lemma ToggleTwice(selected: map<string, string>, code: string, name: string)
    requires name != [] && (code in selected ==> selected[code] == name)
    ensures Toggle(Toggle(selected, code, name), code, name) == selected
  {
    var once := Toggle(selected, code, name);
    var twice := Toggle(once, code, name);
    assert twice.Keys == selected.Keys;
  }

  /** Ascending by code: the comparator `a.code.localeCompare(b.code)`. */
  predicate CodeNotAfter(a: Subject, b: Subject)
  {
    LexLe(a.code, b.code)
  }

  lemma CodeOrder()
    ensures TotalPreorder(CodeNotAfter)
  {
    forall a: Subject, b: Subject ensures CodeNotAfter(a, b) || CodeNotAfter(b, a) {
      LexLeTotal(a.code, b.code);
    }
    forall a: Subject, b: Subject, c: Subject | CodeNotAfter(a, b) && CodeNotAfter(b, c)
      ensures CodeNotAfter(a, c)
    {
      LexLeTransitive(a.code, b.code, c.code);
    }
  }

  /** `items` lists the selection: one `{ code, name }` entry per selected
      code, nothing else, nothing twice. */
  ghost predicate ListsSelection(items: seq<Subject>, selected: map<string, string>)
  {
    && |items| == |selected|
    && Distinct(items)
    && forall x :: x in items <==> x.code in selected && selected[x.code] == x.name
  }

  /** A listing of a map has one entry per code. */
  lemma ListingHasDistinctCodes(items: seq<Subject>, selected: map<string, string>)
    requires ListsSelection(items, selected)
    ensures DistinctCodes(items)
  {
    forall i, j | 0 <= i < j < |items| ensures items[i].code != items[j].code {
      assert items[i] in items && items[j] in items;
    }
  }

  /** `Object.entries(selectedSubjects).map(([code, name]) => ({ code, name }))`,
      in whatever order the object enumerates its keys. */
  method Entries(selected: map<string, string>) returns (items: seq<Subject>)
    ensures ListsSelection(items, selected)
  {
    items := [];
    var rest := selected.Keys;
    while rest != {}
      invariant rest <= selected.Keys
      invariant Distinct(items)
      invariant |items| + |rest| == |selected|
      invariant forall x :: x in items <==> x.code in selected.Keys - rest && selected[x.code] == x.name
      decreases |rest|
    {
      var k :| k in rest;
      items := items + [Subject(k, selected[k])];
      rest := rest - {k};
    }
  }

  /** `newItems`: the selection listed and sorted by code. */
  method NewItems(selected: map<string, string>) returns (items: seq<Subject>)
    ensures ListsSelection(items, selected)
    ensures DistinctCodes(items)
    ensures SortedBy(items, CodeNotAfter)
  {
    var entries := Entries(selected);
    var a := new Subject[|entries|](i requires 0 <= i < |entries| => entries[i]);
    assert a[..] == entries;
    CodeOrder();
    SortInPlace(a, CodeNotAfter);
    items := a[..];
    DistinctPermutation(entries, items);
    assert forall x :: x in items <==> x in multiset(items);
    assert forall x :: x in entries <==> x in multiset(entries);
    ListingHasDistinctCodes(items, selected);
  }

  /** `newItems.some((newItem) => newItem.code === code)`. */
  predicate HasCode(items: seq<Subject>, code: string)
  {
    exists i :: 0 <= i < |items| && items[i].code == code
  }

  /** The previous entries whose code is not newly selected. */
  function Unselected(prev: seq<Subject>, newItems: seq<Subject>): (r: seq<Subject>)
    ensures forall x :: x in r <==> x in prev && !HasCode(newItems, x.code)
  {
    Filter(prev, (item: Subject) => !HasCode(newItems, item.code))
  }

  /** The merged cart: the previous entries whose code is not newly selected,
      in their order, then the new entries. */
  function Merge(prev: seq<Subject>, newItems: seq<Subject>): (merged: seq<Subject>)
    ensures forall x :: x in merged <==> (x in prev && !HasCode(newItems, x.code)) || x in newItems
    ensures |merged| >= |newItems| && merged[|merged| - |newItems|..] == newItems
  {
    Unselected(prev, newItems) + newItems
  }

  /** A cart has distinct codes exactly when its tail has and the head's
      code is not in the tail. */
  lemma ConsDistinctCodes(h: Subject, t: seq<Subject>)
    ensures DistinctCodes([h] + t) <==> DistinctCodes(t) && forall x :: x in t ==> x.code != h.code
  {
    var s := [h] + t;
    if DistinctCodes(s) {
      forall i, j | 0 <= i < j < |t| ensures t[i].code != t[j].code {
        assert t[i] == s[i + 1] && t[j] == s[j + 1];
      }
      forall x | x in t ensures x.code != h.code {
        var k :| 0 <= k < |t| && t[k] == x;
        assert s[0] == h && s[k + 1] == x;
      }
    }
    if DistinctCodes(t) && forall x :: x in t ==> x.code != h.code {
      forall i, j | 0 <= i < j < |s| ensures s[i].code != s[j].code {
        assert s[j] == t[j - 1] && s[j] in t;
        if i > 0 {
          assert s[i] == t[i - 1];
        }
      }
    }
  }

  /** Filtering keeps codes distinct. */
  lemma {:induction false} FilterKeepsDistinctCodes(s: seq<Subject>, p: Subject -> bool)
    requires DistinctCodes(s)
    ensures DistinctCodes(Filter(s, p))
  {
    if s != [] {
      assert s == [s[0]] + s[1..];
      ConsDistinctCodes(s[0], s[1..]);
      FilterKeepsDistinctCodes(s[1..], p);
      if p(s[0]) {
        ConsDistinctCodes(s[0], Filter(s[1..], p));
      }
    }
  }

  /** Merging into a cart without repeated codes gives a cart without
      repeated codes that holds each selected entry exactly once. */
  lemma MergeKeepsCodesDistinct(prev: seq<Subject>, newItems: seq<Subject>)
    requires DistinctCodes(prev) && DistinctCodes(newItems)
    ensures DistinctCodes(Merge(prev, newItems))
    ensures forall n :: n in newItems ==> n in Merge(prev, newItems)
  {
    var kept := Unselected(prev, newItems);
    FilterKeepsDistinctCodes(prev, (item: Subject) => !HasCode(newItems, item.code));
    var merged := Merge(prev, newItems);
    assert merged == kept + newItems;
    forall i, j | 0 <= i < j < |merged| ensures merged[i].code != merged[j].code {
      if j < |kept| {
      } else if i < |kept| {
        assert merged[i] in kept;
        assert merged[j] == newItems[j - |kept|];
      } else {
        assert merged[i] == newItems[i - |kept|] && merged[j] == newItems[j - |kept|];
      }
    }
  }

  /** With nothing selected the stored cart is rewritten unchanged. */
  lemma MergeNothing(prev: seq<Subject>)
    ensures Merge(prev, []) == prev
  {
    FilterAllPass(prev, (item: Subject) => !HasCode([], item.code));
  }

  class BookListPage {
    const branch: string
    var selectedSem: string
    var selectedSubjects: map<string, string>
    var showAddedOverlay: bool

    /** The branch shown falls back to CME; the first semester is the
        branch's first listed one, or `1ST-SEM` when it lists none. */
    constructor (userBranch: Option<string>, firstListedSem: Option<string>)
      ensures branch == ShownBranch(userBranch)
      ensures selectedSem == (if firstListedSem.Some? && firstListedSem.value != [] then firstListedSem.value else "1ST-SEM")
      ensures selectedSubjects == map[] && !showAddedOverlay
    {
      branch := ShownBranch(userBranch);
      selectedSem := if firstListedSem.Some? && firstListedSem.value != [] then firstListedSem.value else "1ST-SEM";
      selectedSubjects := map[];
      showAddedOverlay := false;
    }

    /** `handleSemClick`: only the semester changes; the selection is kept. */
    method HandleSemClick(sem: string)
      modifies this
      ensures selectedSem == sem
      ensures selectedSubjects == old(selectedSubjects) && showAddedOverlay == old(showAddedOverlay)
    {
      selectedSem := sem;
    }

    method HandleSubjectToggle(code: string, name: string)
      modifies this
      ensures selectedSubjects == Toggle(old(selectedSubjects), code, name)
      ensures selectedSem == old(selectedSem) && showAddedOverlay == old(showAddedOverlay)
    {
      selectedSubjects := Toggle(selectedSubjects, code, name);
    }

    /** The add button is disabled while nothing is selected. */
    predicate AddDisabled()
      reads this
    {
      |selectedSubjects| == 0
    }

    /** `handleAddToCart`: the stored cart (an absent key is empty) is merged
        with the sorted selection and written back; the selection is
        cleared. `newItems` is the sorted selection it merged. */
    method HandleAddToCart(storage: CartStorage) returns (newItems: seq<Subject>)
      modifies this, storage
      ensures ListsSelection(newItems, old(selectedSubjects))
      ensures DistinctCodes(newItems) && SortedBy(newItems, CodeNotAfter)
      ensures var prev := if old(storage.cartItems).Some? then old(storage.cartItems).value else [];
        storage.cartItems == Some(Merge(prev, newItems))
      ensures selectedSubjects == map[] && showAddedOverlay && selectedSem == old(selectedSem)
    {
      var prev := if storage.cartItems.Some? then storage.cartItems.value else [];
      newItems := NewItems(selectedSubjects);
      storage.cartItems := Some(Merge(prev, newItems));
      selectedSubjects := map[];
      showAddedOverlay := true;
    }
  }

  /** Listing an empty selection gives no entries, so adding with nothing
      selected would leave the stored cart as it was. */
  lemma EmptySelectionAddsNothing(prev: seq<Subject>, items: seq<Subject>)
    requires ListsSelection(items, map[])
    ensures items == [] && Merge(prev, items) == prev
  {
    MergeNothing(prev);
  }
}
