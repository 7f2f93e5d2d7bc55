/**
 * Concrete sessions of the list page: a load, a selection, the staging
 * list, a move, and what the container then draws.
 */
module Scenarios {
  import opened Wrappers
  import opened Js
  import opened Items
  import opened Home
  import opened ListContainer

  const Milk := Item(1, "Milk", "2 litres", Num(1))
  const Bread := Item(2, "Bread", "wholemeal", Num(2))
  const StagedMilk := Item(1, "Milk", "2 litres", Text("new"))

  /**
   * Load lists 1 and 2 with one item each, select both, open the staging
   * list and move the only item of list 1 to it.
   */
  method MoveOnlyItemOfListOne() returns (lists: seq<Item>, selected: seq<Number>, showEmptyList: bool, screen: Screen)
    ensures lists == [StagedMilk, Bread]
    ensures selected == [Int(1), Int(2)]
    ensures showEmptyList
    ensures screen == ListCreation(None, true)
  {
    var h := new Home();
    h.FetchData(Decoded(Record(AnArray([Milk, Bread]))));
    ToggleInt([], Int(1));
    h.HandleCheckboxChange(Int(1));
    ToggleInt([Int(1)], Int(2));
    h.HandleCheckboxChange(Int(2));
    h.HandleCreateNewList();
    h.HandleMoveItem(1, Text("new"));
    MovedAt([Milk, Bread], 1, Text("new"), 0);
    MovedAt([Milk, Bread], 1, Text("new"), 1);
    lists, selected, showEmptyList, screen := h.lists, h.selectedLists, h.showEmptyList, h.CurrentScreen();
  }

  /** The same session followed by Cancel brings back the loaded items and clears the selection. */
  method MoveThenCancel() returns (lists: seq<Item>, selected: seq<Number>, showEmptyList: bool)
    ensures lists == [Milk, Bread] && selected == [] && !showEmptyList
  {
    var h := new Home();
    h.FetchData(Decoded(Record(AnArray([Milk, Bread]))));
    h.HandleCheckboxChange(Int(1));
    h.HandleCheckboxChange(Int(2));
    h.HandleCreateNewList();
    h.HandleMoveItem(1, Text("new"));
    h.HandleCancel();
    lists, selected, showEmptyList := h.lists, h.selectedLists, h.showEmptyList;
  }

  /** Selecting only one list keeps the staging list closed and shows the message. */
  method CreateWithOneSelected() returns (showEmptyList: bool, screen: Screen)
    ensures !showEmptyList
    ensures screen == ListCreation(Some(SelectionCountMessage), false)
  {
    var h := new Home();
    h.FetchData(Decoded(Record(AnArray([Milk, Bread]))));
    ToggleInt([], Int(1));
    h.HandleCheckboxChange(Int(1));
    h.HandleCreateNewList();
    showEmptyList, screen := h.showEmptyList, h.CurrentScreen();
  }

  /** A body without a `lists` array shows the error view. */
  method LoadMalformed() returns (screen: Screen, lists: seq<Item>)
    ensures screen == ErrorView && lists == []
  {
    var h := new Home();
    h.FetchData(Decoded(Record(NotAnArray)));
    screen, lists := h.CurrentScreen(), h.lists;
  }

  /**
   * Milk moved to the staging list and back through its left arrow lands in
   * list "1": the same list as before, but spelt as a string, so the
   * collection is not the loaded one; only Cancel brings that back.
   */
  lemma MoveBackThroughArrows()
    ensures var back := Moved(Moved([Milk], 1, Text("new")), 1, Text("1"));
      && back == [Item(1, "Milk", "2 litres", Text("1"))]
      && back != [Milk]
      && KeyOf(back[0].listNumber) == KeyOf(Milk.listNumber)
  {
    MoveBackByKey([Milk], 1, Text("1"), Text("new"));
    MovedTwice([Milk], 1, Text("new"), Text("1"));
    MovedAt([Milk], 1, Text("1"), 0);
    assert NatToString(1) == "1";
  }

  lemma SessionKeyOfBread()
    ensures KeyOf(Bread.listNumber) == "2"
  {
    assert NatToString(2) == "2";
  }

  /** The keys that session leaves: the staged item under "new", the other under "2". */
  lemma SessionKeys()
    ensures Keys([StagedMilk, Bread]) == ["new", "2"]
  {
    SessionKeyOfBread();
  }

  /** A key shorter than every name in the list is none of them. */
  lemma {:induction false} ShorterThanAll(k: string, names: seq<string>)
    requires forall i :: 0 <= i < |names| ==> |k| < |names[i]|
    ensures !InList(k, names)
  {
    if names != [] {
      ShorterThanAll(k, names[1..]);
    }
  }

  lemma SessionKeysNotInherited()
    ensures !IsInherited("new") && !IsInherited("2")
  {
    assert forall i :: 0 <= i < |InheritedNames| ==> 3 < |InheritedNames[i]|;
    ShorterThanAll("new", InheritedNames);
    ShorterThanAll("2", InheritedNames);
  }

  lemma SessionNoThrow()
    ensures !PushThrows([StagedMilk, Bread])
  {
    SessionKeyOfBread();
    SessionKeysNotInherited();
    var lists := [StagedMilk, Bread];
    assert !IsInherited(KeyOf(lists[0].listNumber));
    assert !IsInherited(KeyOf(lists[1].listNumber));
  }

  lemma SessionStaged()
    ensures Members([StagedMilk, Bread], "new") == [StagedMilk]
  {
    SessionKeyOfBread();
    var lists := [StagedMilk, Bread];
    assert Members(lists[..1], "new") == [StagedMilk] by {
      assert lists[..1] == [StagedMilk];
      assert lists[..1][..0] == [];
      assert Members([], "new") == [];
    }
    assert lists[..|lists| - 1] == lists[..1];
    assert Members(lists, "new") == Members(lists[..1], "new");
  }

  /** The session's keys in Object.keys order: the index key "2" before "new". */
  lemma SessionObjectKeys()
    ensures NonNew(ObjectKeys(FirstSeen(["new", "2"]))) == ["2"]
  {
    var ks := ["new", "2"];
    assert FirstSeen(ks[..1]) == ["new"] by {
      assert ks[..1][..0] == [];
    }
    assert FirstSeen(ks) == ks;
    assert !IsArrayIndex("new") by {
      assert !IsRadixDigit("new"[0], false);
    }
    assert IsArrayIndex("2") by {
      assert RadixValue("2", false) == 2;
    }
    assert ObjectKeys(ks) == ["2", "new"] by {
      assert IndexKeys(ks) == ["2"];
      assert NonIndexKeys(ks) == ["new"];
    }
  }

  /**
   * After that session the container draws only list 2: the staging box
   * and the moved item are gone.
   */
  lemma SessionLosesStagedItem()
    ensures Render([StagedMilk, Bread], [Int(1), Int(2)], true).Container?
    ensures var boxes := Render([StagedMilk, Bread], [Int(1), Int(2)], true).boxes;
      && ListBoxKeys(boxes) == ["2"]
      && NewListBoxCount(boxes) == 0 && ShownItems(boxes) == multiset{Bread}
  {
    SessionKeys();
    SessionNoThrow();
    SessionStaged();
    SessionObjectKeys();
    RenderBoxes([StagedMilk, Bread], [Int(1), Int(2)], true);
    StagingBoxLost([StagedMilk, Bread], [Int(1), Int(2)]);
  }

  /** The corrected layout draws the staging box and both items for the same state. */
  lemma SessionFixedKeepsStagedItem()
    ensures RenderFixed([StagedMilk, Bread], [Int(1), Int(2)], true).Container?
    ensures var fixed := RenderFixed([StagedMilk, Bread], [Int(1), Int(2)], true).boxes;
      NewListBoxCount(fixed) == 1 && ShownItems(fixed) == multiset{StagedMilk, Bread}
  {
    SessionNoThrow();
    RenderFixedAgrees([StagedMilk, Bread], [Int(1), Int(2)], true);
    RenderFixedStaging([StagedMilk, Bread], [Int(1), Int(2)], true);
  }

  /** A list_number naming an Object.prototype member makes the container throw. */
  lemma InheritedKeyThrows()
    ensures Render([Item(3, "Eggs", "a dozen", Text("constructor"))], [], false) == RenderThrows
  {
    var lists := [Item(3, "Eggs", "a dozen", Text("constructor"))];
    assert IsInherited(KeyOf(lists[0].listNumber));
  }
}
