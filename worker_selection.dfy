// The worker picker of the add-site and edit-site screens: the
// selectedWorkers list the checkboxes edit, the dialog's search, and
// WorkerSelectionAdapter's list of (worker, checked) items.
module WorkerSelection {
  import opened Wrappers
  import opened Text
  import opened Collections
  import opened Entities

  /** No worker record appears twice. */
  predicate NoDuplicates(s: seq<Worker>)
  {
    forall i, j :: 0 <= i < j < |s| ==> s[i] != s[j]
  }

  /** MutableList.remove(x): drops the first occurrence of x, if any. */
  function RemoveFirst(s: seq<Worker>, x: Worker): (r: seq<Worker>)
    ensures x !in s ==> r == s
    ensures x in s ==> |r| == |s| - 1
    ensures forall y :: y != x ==> (y in r <==> y in s)
    ensures NoDuplicates(s) ==> NoDuplicates(r) && x !in r
  {
    if s == [] then []
    else if s[0] == x then
      assert NoDuplicates(s) ==> x !in s[1..] by {
        if NoDuplicates(s) {
          forall j | 0 <= j < |s[1..]| ensures s[1..][j] != x {
            assert s[1..][j] == s[j + 1];
          }
        }
      }
      s[1..]
    else
      var rest := RemoveFirst(s[1..], x);
      assert NoDuplicates(s) ==> NoDuplicates(s[1..]) && s[0] !in s[1..] by {
        if NoDuplicates(s) {
          forall j | 0 <= j < |s[1..]| ensures s[1..][j] != s[0] {
            assert s[1..][j] == s[j + 1];
          }
        }
      }
      [s[0]] + rest
  }

  /**
   * The checkbox callback: a checked worker is added unless already there;
   * an unchecked one is removed.
   */
  function Toggled(s: seq<Worker>, w: Worker, isSelected: bool): (r: seq<Worker>)
    ensures isSelected ==> w in r
    ensures NoDuplicates(s) ==> NoDuplicates(r) && (w in r <==> isSelected)
    ensures forall y :: y != w ==> (y in r <==> y in s)
    ensures isSelected && w in s ==> r == s
  {
    if isSelected then
      if w in s then s
      else
        assert NoDuplicates(s) ==> NoDuplicates(s + [w]) by {
          if NoDuplicates(s) {
            forall i, j | 0 <= i < j < |s + [w]| ensures (s + [w])[i] != (s + [w])[j] {
              if j == |s| {
                assert (s + [w])[i] == s[i];
              }
            }
          }
        }
        s + [w]
    else RemoveFirst(s, w)
  }

  /** A screen's selectedWorkers list. */
  class SelectedWorkers {
    var workers: seq<Worker>

    constructor ()
      ensures workers == []
    {
      workers := [];
    }

    /** onWorkerSelected(worker, isSelected). */
    method OnWorkerChecked(w: Worker, isSelected: bool)
      modifies this
      ensures workers == Toggled(old(workers), w, isSelected)
    {
      if isSelected {
        if w !in workers {
          workers := workers + [w];
        }
      } else {
        workers := RemoveFirst(workers, w);
      }
    }

    /** The remove button of a selected worker's row. */
    method OnRemoveClicked(w: Worker)
      modifies this
      ensures workers == RemoveFirst(old(workers), w)
    {
      workers := RemoveFirst(workers, w);
    }

    /** The edit screen loads the site's current workers: clear, then addAll. */
    method Load(list: seq<Worker>)
      modifies this
      ensures workers == list
    {
      workers := [];
      workers := workers + list;
    }
  }

  // ---- The dialog's search ----

  /** The lowercase query occurs in the worker's lowercase name or role. */
  predicate NameOrRoleContains(w: Worker, query: string)
  {
    Contains(Lowercase(w.name), query) || Contains(Lowercase(w.role), query)
  }

  function MatchesQuery(query: string): Worker -> bool { (w: Worker) => NameOrRoleContains(w, query) }

  /**
   * onTextChanged: the text is lowercased but not trimmed; a blank query
   * lists every worker, any other keeps the workers it matches, in order.
   */
  function SearchResults(workers: seq<Worker>, text: string): (r: seq<Worker>)
    ensures IsSubsequence(r, workers)
    ensures IsBlank(Lowercase(text)) ==> r == workers
    ensures !IsBlank(Lowercase(text)) ==> forall w :: w in r <==> w in workers && NameOrRoleContains(w, Lowercase(text))
  {
    var query := Lowercase(text);
    if IsBlank(query) then
      SubsequenceReflexive(workers);
      workers
    else
      FilterIsSubsequence(workers, MatchesQuery(query));
      Filter(workers, MatchesQuery(query))
  }

  lemma {:induction false} SubsequenceReflexive(s: seq<Worker>)
    ensures IsSubsequence(s, s)
    decreases |s|
  {
    if s != [] {
      SubsequenceReflexive(s[1..]);
    }
  }

  /** Lowercasing keeps blank text blank and other text non-blank, so the blank test reads the text as typed. */
  lemma LowercaseKeepsBlank(text: string)
    ensures IsBlank(Lowercase(text)) <==> IsBlank(text)
  {
    var low := Lowercase(text);
    forall i | 0 <= i < |text| ensures IsWhitespace(low[i]) <==> IsWhitespace(text[i]) {
      assert low[i] == LowerChar(text[i]);
    }
  }

  // ---- WorkerSelectionAdapter ----

  /** WorkerSelectionItem: a new item is unchecked. */
  datatype SelectionItem = SelectionItem(worker: Worker, isSelected: bool)

  function NewItem(w: Worker): (item: SelectionItem)
    ensures item.worker == w && !item.isSelected
  {
    SelectionItem(w, false)
  }

  /** areItemsTheSame: items are the same row when their workers' ids agree. */
  predicate SameItem(a: SelectionItem, b: SelectionItem)
  {
    a.worker.id == b.worker.id
  }

  /** The dialog's items: each worker, checked when the selection holds it. */
  function ItemsFor(workers: seq<Worker>, selected: seq<Worker>): (r: seq<SelectionItem>)
    ensures |r| == |workers|
    ensures forall i :: 0 <= i < |workers| ==> r[i].worker == workers[i] && (r[i].isSelected <==> workers[i] in selected)
  {
    seq(|workers|, i requires 0 <= i < |workers| => SelectionItem(workers[i], workers[i] in selected))
  }

  /** The test `{ it.isSelected }`. */
  function IsChecked(): SelectionItem -> bool { (it: SelectionItem) => it.isSelected }

  /** `map { it.worker }`: the worker of each item, position by position. */
  function ItemWorkers(items: seq<SelectionItem>): (r: seq<Worker>)
    ensures |r| == |items| && forall i :: 0 <= i < |items| ==> r[i] == items[i].worker
  {
    seq(|items|, i requires 0 <= i < |items| => items[i].worker)
  }

  /**
   * getSelectedWorkers: the workers of the checked items, in list order and
   * with their multiplicity, i.e. `filter { it.isSelected }.map { it.worker }`.
   */
  function SelectedOf(items: seq<SelectionItem>): (r: seq<Worker>)
    ensures |r| <= |items|
    ensures forall w :: w in r <==> SelectionItem(w, true) in items
    ensures r == ItemWorkers(Filter(items, IsChecked()))
  {
    if items == [] then []
    else
      assert items == [items[0]] + items[1..];
      if items[0].isSelected then
        var rest := SelectedOf(items[1..]);
        assert Filter(items, IsChecked()) == [items[0]] + Filter(items[1..], IsChecked());
        assert ItemWorkers([items[0]] + Filter(items[1..], IsChecked())) == [items[0].worker] + rest;
        [items[0].worker] + rest
      else SelectedOf(items[1..])
  }

  function InSelection(selected: seq<Worker>): Worker -> bool { (w: Worker) => w in selected }

  /** The checked workers of freshly built items are the listed workers the selection holds, in list order. */
  lemma {:induction false} SelectedOfItems(workers: seq<Worker>, selected: seq<Worker>)
    ensures SelectedOf(ItemsFor(workers, selected)) == Filter(workers, InSelection(selected))
    decreases |workers|
  {
    if workers != [] {
      assert ItemsFor(workers, selected)[1..] == ItemsFor(workers[1..], selected);
      SelectedOfItems(workers[1..], selected);
    }
  }

  /** indexOfFirst { it.worker.id == id }. */
  function IndexOfWorker(items: seq<SelectionItem>, id: int): (r: Option<nat>)
    ensures r.None? <==> forall i :: 0 <= i < |items| ==> items[i].worker.id != id
    ensures r.Some? ==> (r.value < |items| && items[r.value].worker.id == id
      && forall j :: 0 <= j < r.value ==> items[j].worker.id != id)
  {
    if items == [] then None
    else if items[0].worker.id == id then Some(0)
    else match IndexOfWorker(items[1..], id)
      case None => None
      case Some(k) => Some(k + 1)
  }

  /** updateSelection's list: the first item with the worker's id gets the new check state. */
  function WithSelection(items: seq<SelectionItem>, id: int, isSelected: bool): (r: seq<SelectionItem>)
    ensures |r| == |items|
    ensures IndexOfWorker(items, id).None? ==> r == items
    ensures IndexOfWorker(items, id).Some? ==>
      var k := IndexOfWorker(items, id).value;
      r[k] == items[k].(isSelected := isSelected) && forall j :: 0 <= j < |items| && j != k ==> r[j] == items[j]
  {
    match IndexOfWorker(items, id)
    case None => items
    case Some(k) => items[k := items[k].(isSelected := isSelected)]
  }

  /** Worker ids tell the items apart. */
  predicate UniqueWorkerIds(items: seq<SelectionItem>)
  {
    forall i, j :: 0 <= i < j < |items| ==> items[i].worker.id != items[j].worker.id
  }

  /**
   * On a list whose items have different worker ids, updating one worker's
   * item makes getSelectedWorkers hold that item's worker exactly when the
   * new state is checked, and leaves every other item's answer alone.
   */
  lemma UpdateSelectionEffect(items: seq<SelectionItem>, id: int, isSelected: bool, k: nat)
    requires UniqueWorkerIds(items)
    requires k < |items| && items[k].worker.id == id
    ensures var after := SelectedOf(WithSelection(items, id, isSelected));
      && (items[k].worker in after <==> isSelected)
      && forall j :: 0 <= j < |items| && j != k ==> (items[j].worker in after <==> items[j].worker in SelectedOf(items))
  {
    var after := WithSelection(items, id, isSelected);
    assert IndexOfWorker(items, id) == Some(k);
    forall j | 0 <= j < |items| && j != k
      ensures items[j].worker in SelectedOf(after) <==> items[j].worker in SelectedOf(items)
    {
      var item := SelectionItem(items[j].worker, true);
      if item in after {
        var i :| 0 <= i < |after| && after[i] == item;
        assert i != k;
      }
      if item in items {
        var i :| 0 <= i < |items| && items[i] == item;
        assert i != k;
        assert after[i] == items[i];
      }
    }
    var mine := SelectionItem(items[k].worker, true);
    if mine in after {
      var i :| 0 <= i < |after| && after[i] == mine;
      assert i == k;
    }
    if isSelected {
      assert after[k] == mine;
    }
  }

  /** WorkerSelectionAdapter: the list of items it shows. */
  class WorkerSelectionAdapter {
    var currentList: seq<SelectionItem>

    constructor ()
      ensures currentList == []
    {
      currentList := [];
    }

    method SubmitList(items: seq<SelectionItem>)
      modifies this
      ensures currentList == items
    {
      currentList := items;
    }

    method GetSelectedWorkers() returns (r: seq<Worker>)
      ensures r == SelectedOf(currentList)
    {
      r := SelectedOf(currentList);
    }

    /** updateSelection: copy the list, set one item's check state, resubmit; no matching item leaves the list as it was. */
    method UpdateSelection(w: Worker, isSelected: bool)
      modifies this
      ensures currentList == WithSelection(old(currentList), w.id, isSelected)
    {
      var list := currentList;
      var index := IndexOfWorker(list, w.id);
      if index.Some? {
        list := list[index.value := list[index.value].(isSelected := isSelected)];
        currentList := list;
      }
    }
  }
}
