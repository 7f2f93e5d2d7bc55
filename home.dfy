/**
 * The page-level state of the list UI (Home.jsx): seven state cells and the
 * handlers that overwrite them. Each React state cell is a field of class
 * Home; each handler is a method that applies, in one step, every update
 * the source schedules. The new values come from the pure functions
 * Toggled and Moved, whose properties are proved as lemmas.
 */
module Home {
  import opened Wrappers
  import opened Js
  import opened Items

  const SelectionCountMessage: string := "You should select exactly 2 lists to create a new list"

  // ---------------------------------------------------------------------------
  // Selection: handleCheckboxChange's updater

  /** `s.filter(num => num !== n)`: with ===, a NaN is never filtered out. */
  function Without(s: seq<Number>, n: Number): seq<Number> {
    if s == [] then []
    else (if StrictEquals(s[0], n) then [] else [s[0]]) + Without(s[1..], n)
  }

  /** The filter keeps exactly the members not strictly equal to n, and never grows. */
  lemma {:induction false} WithoutMembers(s: seq<Number>, n: Number)
    ensures forall x :: x in Without(s, n) <==> x in s && !StrictEquals(x, n)
    ensures |Without(s, n)| <= |s|
  {
    if s != [] {
      WithoutMembers(s[1..], n);
      assert s == [s[0]] + s[1..];
    }
  }

  /**
   * The new selection after a checkbox change: `includes` (SameValueZero,
   * here `in`) decides between deselecting by `filter` and appending.
   */
  function Toggled(selected: seq<Number>, n: Number): seq<Number> {
    if n in selected then Without(selected, n) else selected + [n]
  }

  lemma {:induction false} WithoutAppend(a: seq<Number>, b: seq<Number>, n: Number)
    ensures Without(a + b, n) == Without(a, n) + Without(b, n)
  {
    if a == [] {
      assert a + b == b;
    } else {
      assert (a + b)[1..] == a[1..] + b;
      WithoutAppend(a[1..], b, n);
    }
  }

  /** Filtering removes nothing when nothing is strictly equal to n. */
  lemma {:induction false} WithoutNothing(s: seq<Number>, n: Number)
    requires forall i :: 0 <= i < |s| ==> !StrictEquals(s[i], n)
    ensures Without(s, n) == s
  {
    if s != [] {
      WithoutNothing(s[1..], n);
    }
  }

  lemma {:induction false} WithoutKeepsDistinct(s: seq<Number>, n: Number)
    requires Distinct(s)
    ensures Distinct(Without(s, n))
  {
    if s != [] {
      assert Distinct(s[1..]) by {
        forall i, j | 0 <= i < j < |s[1..]| ensures s[1..][i] != s[1..][j] {
          assert s[1..][i] == s[i + 1] && s[1..][j] == s[j + 1];
        }
      }
      WithoutKeepsDistinct(s[1..], n);
      WithoutMembers(s[1..], n);
      var rest := Without(s[1..], n);
      if !StrictEquals(s[0], n) {
        assert s[0] !in s[1..] by {
          forall j | 0 <= j < |s[1..]| ensures s[1..][j] != s[0] {
            assert s[1..][j] == s[j + 1];
          }
        }
        assert s[0] !in rest;
        var r := [s[0]] + rest;
        forall i, j | 0 <= i < j < |r| ensures r[i] != r[j] {
          if i == 0 {
            assert r[j] == rest[j - 1];
          } else {
            assert r[i] == rest[i - 1] && r[j] == rest[j - 1];
          }
        }
      }
    }
  }

  /**
   * Toggling an integer label flips whether it is selected; every other
   * member keeps its relative order, and a newly selected label is appended.
   */
  lemma ToggleInt(s: seq<Number>, n: Number)
    requires n.Int?
    ensures n in Toggled(s, n) <==> n !in s
    ensures Without(Toggled(s, n), n) == Without(s, n)
    ensures n !in s ==> |Toggled(s, n)| == |s| + 1 && Toggled(s, n)[|s|] == n && Toggled(s, n)[..|s|] == s
  {
    if n in s {
      WithoutMembers(s, n);
      var w := Without(s, n);
      WithoutNothing(w, n);
    } else {
      WithoutAppend(s, [n], n);
      assert (s + [n])[..|s|] == s;
    }
  }

  /** A NaN, once selected, cannot be deselected by toggling it again. */
  lemma ToggleNaN(s: seq<Number>)
    ensures NaN in s ==> Toggled(s, NaN) == s
    ensures NaN !in s ==> Toggled(s, NaN) == s + [NaN]
  {
    if NaN in s {
      WithoutNothing(s, NaN);
    }
  }

  /** A selection without duplicates stays without duplicates. */
  lemma ToggleKeepsDistinct(s: seq<Number>, n: Number)
    requires Distinct(s)
    ensures Distinct(Toggled(s, n))
  {
    if n in s {
      WithoutKeepsDistinct(s, n);
    } else {
      var r := s + [n];
      forall i, j | 0 <= i < j < |r| ensures r[i] != r[j] {
        if j == |s| {
          assert r[i] == s[i];
        }
      }
    }
  }

  /**
   * Toggling an integer label twice gives back the same set of selected
   * labels, and the very same sequence when the label was not selected.
   */
  lemma ToggleTwice(s: seq<Number>, n: Number)
    requires n.Int?
    ensures forall x :: x in Toggled(Toggled(s, n), n) <==> x in s
    ensures n !in s ==> Toggled(Toggled(s, n), n) == s
  {
    ToggleInt(s, n);
    ToggleInt(Toggled(s, n), n);
    WithoutMembers(s, n);
    if n !in s {
      WithoutAppend(s, [n], n);
      WithoutNothing(s, n);
    }
  }

  // ---------------------------------------------------------------------------
  // Moving: handleMoveItem's map

  function Relabel(item: Item, itemId: int, targetList: Label): Item {
    if item.id == itemId then item.(listNumber := targetList) else item
  }

  /** `prevLists.map(item => item.id === itemId ? {...item, list_number: targetList} : item)` */
  function Moved(items: seq<Item>, itemId: int, targetList: Label): (r: seq<Item>)
    ensures |r| == |items|
  {
    if items == [] then [] else [Relabel(items[0], itemId, targetList)] + Moved(items[1..], itemId, targetList)
  }

  lemma {:induction false} MovedAt(items: seq<Item>, itemId: int, targetList: Label, i: int)
    requires 0 <= i < |items|
    ensures Moved(items, itemId, targetList)[i] == Relabel(items[i], itemId, targetList)
  {
    if i > 0 {
      MovedAt(items[1..], itemId, targetList, i - 1);
    }
  }

  /** Two collections hold the same items in the same order, up to list_number. */
  ghost predicate SameItemsUpToLabel(a: seq<Item>, b: seq<Item>) {
    && |a| == |b|
    && forall i :: 0 <= i < |a| ==>
         a[i].id == b[i].id && a[i].name == b[i].name && a[i].description == b[i].description
  }

  /**
   * A move keeps the length and order of the collection; every item with
   * the id gets the target label and keeps its other fields; every other
   * item is unchanged.
   */
  lemma MovedRelabels(items: seq<Item>, itemId: int, targetList: Label)
    ensures var r := Moved(items, itemId, targetList);
      && SameItemsUpToLabel(r, items)
      && (forall i :: 0 <= i < |items| && items[i].id == itemId ==> r[i].listNumber == targetList)
      && (forall i :: 0 <= i < |items| && items[i].id != itemId ==> r[i] == items[i])
  {
    forall i | 0 <= i < |items| {
      MovedAt(items, itemId, targetList, i);
    }
  }

  /** Of two moves of the same item, the later one decides its list. */
  lemma MovedTwice(items: seq<Item>, itemId: int, first: Label, second: Label)
    ensures Moved(Moved(items, itemId, first), itemId, second) == Moved(items, itemId, second)
  {
    var once := Moved(items, itemId, first);
    forall i | 0 <= i < |items|
      ensures Moved(once, itemId, second)[i] == Moved(items, itemId, second)[i]
    {
      MovedAt(items, itemId, first, i);
      MovedAt(once, itemId, second, i);
      MovedAt(items, itemId, second, i);
    }
  }

  /** Moving an item back to the list it came from undoes the move. */
  lemma MoveBack(items: seq<Item>, itemId: int, from: Label, to: Label)
    requires forall i :: 0 <= i < |items| && items[i].id == itemId ==> items[i].listNumber == from
    ensures Moved(Moved(items, itemId, to), itemId, from) == items
  {
    MovedTwice(items, itemId, to, from);
    forall i | 0 <= i < |items| ensures Moved(items, itemId, from)[i] == items[i] {
      MovedAt(items, itemId, from, i);
    }
  }

  /**
   * The back arrows write the strings "1" and "2", so an item loaded with a
   * numeric list_number comes back as a string. Moving back to a label with
   * the same property key restores every item up to that spelling: same
   * ids, names, descriptions and order, and every item in the list it had.
   */
  lemma MoveBackByKey(items: seq<Item>, itemId: int, from: Label, to: Label)
    requires forall i :: 0 <= i < |items| && items[i].id == itemId ==> KeyOf(items[i].listNumber) == KeyOf(from)
    ensures var r := Moved(Moved(items, itemId, to), itemId, from);
      && SameItemsUpToLabel(r, items)
      && forall i :: 0 <= i < |items| ==> KeyOf(r[i].listNumber) == KeyOf(items[i].listNumber)
  {
    MovedTwice(items, itemId, to, from);
    MovedRelabels(items, itemId, from);
  }

  // ---------------------------------------------------------------------------
  // Loading: the outcome of one fetchData call

  /** The `lists` field of the decoded response body. */
  datatype ListsField = Missing | NotAnArray | AnArray(items: seq<Item>)

  /** The decoded body: null, undefined or a primitive (no `lists` property), or an object. */
  datatype Payload = NotAnObject | Record(lists: ListsField)

  /** How one request ended: fetch or response.json() rejected, or a body was decoded. */
  datatype Response = Rejected | Decoded(data: Payload)

  /** The shape check `data && data.lists && Array.isArray(data.lists)`. */
  function LoadedLists(response: Response): Option<seq<Item>> {
    match response
    case Decoded(Record(AnArray(items))) => Some(items)
    case _ => None
  }

  /** Which of the three views the page renders. */
  datatype Screen = Spinner | ErrorView | ListCreation(message: Option<string>, cancelAndUpdate: bool)

  class Home {
    var isLoading: bool
    var error: bool
    var lists: seq<Item>
    var selectedLists: seq<Number>
    var createListError: string
    var showEmptyList: bool
    var originalLists: seq<Item>

    /**
     * The live collection and the snapshot hold the same items, up to
     * list_number, and no list is selected twice.
     */
    ghost predicate Valid()
      reads this
    {
      && SameItemsUpToLabel(lists, originalLists)
      && Distinct(selectedLists)
    }

    /** The view chosen at lines 88-113: spinner, error view, or the lists with their controls. */
    function CurrentScreen(): Screen
      reads this
    {
      if isLoading then Spinner
      else if error then ErrorView
      else ListCreation(if createListError != "" then Some(createListError) else None, showEmptyList)
    }

    constructor ()
      ensures Valid()
      ensures isLoading && !error && lists == [] && selectedLists == []
      ensures createListError == "" && !showEmptyList && originalLists == []
      ensures CurrentScreen() == Spinner
    {
      isLoading := true;
      error := false;
      lists := [];
      selectedLists := [];
      createListError := "";
      showEmptyList := false;
      originalLists := [];
    }

    /**
     * The completion of fetchData: a well-shaped response replaces both the
     * live collection and the snapshot; anything else shows the error view
     * and leaves both collections as they were.
     */
    method FetchData(response: Response)
      requires Valid()
      modifies this
      ensures Valid()
      ensures !isLoading
      ensures LoadedLists(response).Some? ==>
        lists == LoadedLists(response).value && originalLists == LoadedLists(response).value && !error
      ensures LoadedLists(response).None? ==>
        error && lists == old(lists) && originalLists == old(originalLists)
      ensures selectedLists == old(selectedLists) && createListError == old(createListError)
      ensures showEmptyList == old(showEmptyList)
      ensures CurrentScreen().ListCreation? <==> LoadedLists(response).Some?
    {
      match LoadedLists(response)
      case Some(items) =>
        lists := items;
        originalLists := items;
        isLoading := false;
        error := false;
      case None =>
        error := true;
        isLoading := false;
    }

    /** Toggles a list's selection and clears the selection error. */
    method HandleCheckboxChange(listNumber: Number)
      requires Valid()
      modifies this
      ensures Valid()
      ensures selectedLists == Toggled(old(selectedLists), listNumber)
      ensures createListError == ""
      ensures isLoading == old(isLoading) && error == old(error) && lists == old(lists)
      ensures showEmptyList == old(showEmptyList) && originalLists == old(originalLists)
    {
      ToggleKeepsDistinct(selectedLists, listNumber);
      selectedLists := Toggled(selectedLists, listNumber);
      createListError := "";
    }

    /** Shows the staging list, but only when exactly two lists are selected. */
    method HandleCreateNewList()
      requires Valid()
      modifies this
      ensures Valid()
      ensures |selectedLists| != 2 ==>
        createListError == SelectionCountMessage && showEmptyList == old(showEmptyList)
      ensures |selectedLists| == 2 ==>
        showEmptyList && createListError == old(createListError)
      ensures isLoading == old(isLoading) && error == old(error) && lists == old(lists)
      ensures selectedLists == old(selectedLists) && originalLists == old(originalLists)
    {
      if |selectedLists| != 2 {
        createListError := SelectionCountMessage;
        return;
      }
      showEmptyList := true;
    }

    /** Reassigns the list_number of every item with the id; the snapshot is untouched. */
    method HandleMoveItem(itemId: int, targetList: Label)
      requires Valid()
      modifies this
      ensures Valid()
      ensures lists == Moved(old(lists), itemId, targetList)
      ensures isLoading == old(isLoading) && error == old(error) && selectedLists == old(selectedLists)
      ensures createListError == old(createListError) && showEmptyList == old(showEmptyList)
      ensures originalLists == old(originalLists)
    {
      MovedRelabels(lists, itemId, targetList);
      lists := Moved(lists, itemId, targetList);
    }

    /** Restores the snapshot, hides the staging list and clears the selection. */
    method HandleCancel()
      requires Valid()
      modifies this
      ensures Valid()
      ensures lists == old(originalLists) && !showEmptyList && selectedLists == []
      ensures isLoading == old(isLoading) && error == old(error)
      ensures createListError == old(createListError) && originalLists == old(originalLists)
    {
      lists := originalLists;
      showEmptyList := false;
      selectedLists := [];
    }

    /** Hides the staging list; nothing else changes (the new arrangement is only logged). */
    method HandleUpdate()
      requires Valid()
      modifies this
      ensures Valid()
      ensures !showEmptyList
      ensures isLoading == old(isLoading) && error == old(error) && lists == old(lists)
      ensures selectedLists == old(selectedLists) && createListError == old(createListError)
      ensures originalLists == old(originalLists)
    {
      showEmptyList := false;
    }
  }

  /** The user actions available between two loads, other than Cancel. */
  datatype Action = Toggle(listNumber: Number) | CreateNewList | MoveItem(itemId: int, targetList: Label) | Update

  method Perform(h: Home, a: Action)
    requires h.Valid()
    modifies h
    ensures h.Valid() && h.originalLists == old(h.originalLists)
  {
    match a
    case Toggle(n) => h.HandleCheckboxChange(n);
    case CreateNewList => h.HandleCreateNewList();
    case MoveItem(id, t) => h.HandleMoveItem(id, t);
    case Update => h.HandleUpdate();
  }

  /**
   * Whatever the user did since the last load, Cancel brings back the
   * collection that load delivered.
   */
  method CancelAfterActions(h: Home, actions: seq<Action>)
    requires h.Valid()
    modifies h
    ensures h.Valid()
    ensures h.lists == old(h.originalLists) && h.originalLists == old(h.originalLists)
    ensures !h.showEmptyList && h.selectedLists == []
  {
    var i := 0;
    while i < |actions|
      invariant 0 <= i <= |actions|
      invariant h.Valid() && h.originalLists == old(h.originalLists)
    {
      Perform(h, actions[i]);
      i := i + 1;
    }
    h.HandleCancel();
  }
}
