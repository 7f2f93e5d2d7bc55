# List creation page: a verified model

The page loads a collection of items, each tagged with a `list_number`.
The user selects two lists and opens a third, staging, list (label `"new"`).
Items then move between list 1, the staging list and list 2 through arrow buttons.
Afterwards the user either restores the loaded snapshot (Cancel) or hides the staging list (Update).

Six Dafny modules follow the program's structure:

- `Js` (js.dfy): the JavaScript conversions the page relies on.
  - `String(n)` for an integer list number (`IntToString`).
  - The array-index test that orders `Object.keys` (section 6.1.7 of ECMA-262).
  - `parseInt` with no radix (section 19.2.5 of ECMA-262), whose result is an integer or `NaN` (`Number`).
- `Items` (items.dfy): items and their labels. A label is a number or a string (`Label`), and `KeyOf` is the property key it becomes, so `1` and `"1"` name the same list.
- `Home` (home.dfy): the page controller, `src/pages/Home.jsx`.
  - The seven state cells are the fields of class `Home`.
  - Each handler is a method that makes, in one step, every state update the source schedules.
  - New values come from the pure functions `Toggled` (the checkbox updater) and `Moved` (the move map), whose properties are lemmas.
  - The response of a load is abstracted to its outcome (`Response`): rejected, or decoded with or without a `lists` array.
- `Wrappers` (wrappers.dfy): the `Option` type used for the load outcome and for absent move handlers.
- `ListContainer` (list_container.dfy): the container, `src/components/ListContainer.jsx`, plus the button rule of `src/components/ListItem.jsx`.
  - The `reduce` is a loop method over a map (`GroupByListNumber`), proved equal to a reference grouping (`Group`).
  - `GroupingIsPartition` and its lemmas prove the grouping is a partition.
  - `Object.keys` order is `ObjectKeys`: array-index keys ascending, then the other keys in insertion order (section 10.1.11.1 of ECMA-262).
  - The rendering is a function from the props to a list of boxes (`Render`). Each box carries its checkbox state, its items and its move targets.
- `Scenarios` (scenarios.dfy): concrete sessions driven through the `Home` methods, and the container's output for them.

Three points where the code differs from a plain reading of the page's intent. The model follows the code in each.

- Group order is `Object.keys` order, not first-seen order. Numeric keys such as `"1"` and `"2"` come first, ascending.
- Moves are wired to the fixed labels `"1"` and `"2"`, whatever lists are selected. The selection is a sequence that toggling can grow past two entries.
- The `listNum === "new"` alternatives at src/components/ListContainer.jsx:56-57 and 63-64 are never taken, because they sit inside the `listNum !== "new"` branch. `ListBoxWired` states the targets that do occur.

A key naming a member of `Object.prototype` (`"constructor"`, `"__proto__"`, …) makes `acc[list_number]` truthy before any array exists. The `push` then throws a TypeError. The model represents this as `PushOnInherited` and the view as `RenderThrows`.

## Model

| member | source | states |
|---|---|---|
| Js.NatToStringDigits | src/components/ListContainer.jsx:20-23 | the key `String(n)` of a natural n is a non-empty canonical decimal string (no leading zero) whose value is n |
| Js.ArrayIndexOfInt | src/components/ListContainer.jsx:30 | `String(n)` is an array-index key exactly when 0 <= n <= 2^32-2, and its index value is then n |
| Js.TrimStartSuffix | src/components/ListContainer.jsx:40 | parseInt's white-space skip drops exactly the leading white space: every dropped character is white space, and the rest is empty or starts with a non-space character |
| Js.DigitPrefixLongest | src/components/ListContainer.jsx:40 | the digits parseInt reads are the longest digit prefix: all digits, and followed by a non-digit or the end |
| Js.DigitPrefixOfDigits | src/components/ListContainer.jsx:40 | on a string of digits parseInt's digit run is the whole string |
| Js.ParseUnsignedOfNatToString | src/components/ListContainer.jsx:40-41 | reading the decimal digits of m gives back m |
| Js.ParseIntOfIntToString | src/components/ListContainer.jsx:40-41 | `parseInt(String(n)) === n` for every integer n, so a numeric list's checkbox reports its own number |
| Home.WithoutMembers | src/pages/Home.jsx:47 | `filter(num => num !== n)` keeps exactly the members not strictly equal to n (a NaN is never removed) and never grows |
| Home.WithoutAppend | src/pages/Home.jsx:47 | filtering distributes over concatenation, so the order of the kept members is unchanged |
| Home.WithoutNothing | src/pages/Home.jsx:47 | filtering a sequence with no member strictly equal to n returns it unchanged |
| Home.WithoutKeepsDistinct | src/pages/Home.jsx:47 | filtering a duplicate-free selection leaves it duplicate-free |
| Home.ToggleInt | src/pages/Home.jsx:46-48 | toggling an integer flips whether it is selected; the other members keep their relative order; a newly selected label goes at the end |
| Home.ToggleNaN | src/pages/Home.jsx:46-48 | toggling NaN appends it when absent and otherwise changes nothing, since `includes` finds NaN but `!==` never removes it |
| Home.ToggleKeepsDistinct | src/pages/Home.jsx:46-48 | toggling keeps the selection duplicate-free |
| Home.ToggleTwice | src/pages/Home.jsx:46-48 | toggling an integer twice gives back the same set of selected labels, and the very same sequence when it was not selected |
| Home.Moved | src/pages/Home.jsx:66-70 | the move map keeps the length of the collection |
| Home.MovedAt | src/pages/Home.jsx:67-69 | position i of the moved collection is item i relabelled when its id matches and unchanged otherwise |
| Home.MovedRelabels | src/pages/Home.jsx:65-71 | a move keeps order, ids, names and descriptions; every item with the id gets the target label and every other item is identical |
| Home.MovedTwice | src/pages/Home.jsx:67-69 | two moves of the same id amount to the second move alone |
| Home.MoveBack | src/pages/Home.jsx:67-69 | moving an item away and back to the exact label it had restores the collection |
| Home.MoveBackByKey | src/pages/Home.jsx:67-69 | moving an item away and back to a label with the same property key keeps every item's id, name, description, position and key |
| Home.Home.constructor | src/pages/Home.jsx:8-14 | the initial state: loading, no error, empty collections and selection, empty message, staging hidden, spinner shown |
| Home.Home.FetchData | src/pages/Home.jsx:23-35 | a response with a `lists` array replaces the collection and the snapshot and clears the error; any other outcome sets the error and keeps both; loading ends either way, and the lists view is shown exactly on success |
| Home.Home.HandleCheckboxChange | src/pages/Home.jsx:44-53 | the selection becomes its toggle by `listNumber` and stays duplicate-free, the message is cleared, and nothing else changes |
| Home.Home.HandleCreateNewList | src/pages/Home.jsx:56-62 | without exactly two selected lists the message becomes the fixed text and the staging flag is kept; with two the staging list is shown and the message is kept; nothing else changes |
| Home.Home.HandleMoveItem | src/pages/Home.jsx:65-71 | the collection becomes its move and every other field, the snapshot included, is unchanged |
| Home.Home.HandleCancel | src/pages/Home.jsx:74-78 | the collection becomes the snapshot, the staging list is hidden, the selection is emptied; message and snapshot are kept |
| Home.Home.HandleUpdate | src/pages/Home.jsx:81-84 | only the staging flag changes, to false |
| Home.Perform | src/pages/Home.jsx:44-84 | no user action other than Cancel touches the snapshot, and every action keeps the selection duplicate-free |
| Home.CancelAfterActions | src/pages/Home.jsx:74-78 | after any sequence of toggles, creations, moves and updates, Cancel restores the last loaded collection, hides staging and clears the selection |
| ListContainer.FirstSeenKeys | src/components/ListContainer.jsx:18-25 | the accumulator's keys are exactly the items' keys, each once |
| ListContainer.GroupMapSnoc | src/components/ListContainer.jsx:19-24 | one reduce step appends the item to the array under its key, creating the array when the key is new |
| ListContainer.ReduceStep | src/components/ListContainer.jsx:19-24 | the loop's test `key in acc` agrees with the insertion order, and one step maps the state for i items to the state for i+1 |
| ListContainer.GroupByListNumber | src/components/ListContainer.jsx:18-25 | the in-place reduce yields the reference grouping: the first-seen keys with each key's items, or the TypeError when a key is inherited |
| ListContainer.MemberIff | src/components/ListContainer.jsx:18-25 | an item is in the group of key k exactly when it is in the collection with key k |
| ListContainer.MembersAppend | src/components/ListContainer.jsx:18-25 | grouping is a filter, so a group keeps the input order of its items |
| ListContainer.FirstSeenOrder | src/components/ListContainer.jsx:18-25 | the accumulator's insertion order is the order in which the keys are first met |
| ListContainer.GroupKeys | src/components/ListContainer.jsx:18-25 | every item's key is a group, every group comes from an item, and no key is inserted twice |
| ListContainer.GroupMembers | src/components/ListContainer.jsx:18-25 | each group holds exactly the items with its key |
| ListContainer.GroupLayout | src/components/ListContainer.jsx:18-30 | the groups concatenated in `Object.keys` order are a permutation of the collection |
| ListContainer.GroupingIsPartition | src/components/ListContainer.jsx:18-30 | a successful reduce is a partition: each item lands in the group of its key, groups are exactly the members, insertion order is first-seen order, and the laid-out groups permute the input |
| ListContainer.NonIndexKeys | src/components/ListContainer.jsx:30 | the keys listed after the array indices are none of them array indices |
| ListContainer.InsertByValueCount | src/components/ListContainer.jsx:30 | inserting an index key adds exactly that key |
| ListContainer.InsertByValueAscending | src/components/ListContainer.jsx:30 | inserting into an ascending run of index keys keeps it ascending |
| ListContainer.SortByValueSorts | src/components/ListContainer.jsx:30 | the index keys are put in ascending numeric order as a permutation |
| ListContainer.ObjectKeysPositions | src/components/ListContainer.jsx:30 | in `Object.keys` the array-index keys occupy exactly the leading positions |
| ListContainer.ObjectKeysCount | src/components/ListContainer.jsx:30 | `Object.keys` lists every own key once: a permutation of the insertion order |
| ListContainer.ObjectKeysIndexFirst | src/components/ListContainer.jsx:30 | no array-index key follows a key that is not one |
| ListContainer.ObjectKeysAscending | src/components/ListContainer.jsx:30 | array-index keys appear in ascending numeric order |
| ListContainer.ObjectKeysRest | src/components/ListContainer.jsx:30 | the other keys keep their insertion order |
| ListContainer.ObjectKeysOrder | src/components/ListContainer.jsx:30 | `Object.keys` order in full: a permutation, index keys first and ascending, then the rest in insertion order |
| ListContainer.ObjectKeysOfGroups | src/components/ListContainer.jsx:18-30 | the laid-out keys are the items' keys, each once |
| ListContainer.LookupGroupMap | src/components/ListContainer.jsx:47 | `groupedLists[k]` holds the items with key k, and nothing for a key no item has |
| ListContainer.Render | src/components/ListContainer.jsx:13-25 | "No lists available." exactly for an empty collection; the TypeError exactly when a non-empty collection has an inherited key |
| ListContainer.RenderedLayout | src/components/ListContainer.jsx:13-30 | a successful render is the layout of the groups in `Object.keys` order, with no inherited key |
| ListContainer.Buttons | src/components/ListItem.jsx:6-27 | an item with an empty name or description, or with arrows hidden, gets no button; otherwise exactly one button per non-null handler, the left one first, each to its handler's target |
| ListContainer.ViewsOfBox | src/components/ListContainer.jsx:47-90 | every item of a regular box gets that box's arrows and targets; every staging item gets arrows, left to "1" and right to "2" |
| ListContainer.FragmentListBoxKeys | src/components/ListContainer.jsx:33-34 | a key's fragment holds its regular box unless the key is "new" |
| ListContainer.FragmentNewListBoxCount | src/components/ListContainer.jsx:74 | a key's fragment holds a staging box exactly when staging is shown and the key is "1" |
| ListContainer.FragmentShownItems | src/components/ListContainer.jsx:33-90 | a key's fragment draws its own group (unless "new") and, after key "1" while staging is shown, the "new" group |
| ListContainer.FragmentWiring | src/components/ListContainer.jsx:33-90 | every box of a fragment is wired as the source writes it |
| ListContainer.LayoutListBoxKeys | src/components/ListContainer.jsx:30-71 | the regular boxes are the keys other than "new", in key order |
| ListContainer.LayoutNewListBoxCount | src/components/ListContainer.jsx:74 | over distinct keys there is one staging box when staging is shown and "1" is a key, none otherwise |
| ListContainer.LayoutShownItems | src/components/ListContainer.jsx:30-93 | the boxes draw the groups other than "new", plus the "new" group when the staging box is drawn |
| ListContainer.LayoutBoxes | src/components/ListContainer.jsx:30-93 | every box of the layout is wired as the source writes it |
| ListContainer.RenderBoxes | src/components/ListContainer.jsx:30-93 | one regular box per group other than "new", in `Object.keys` order; checkbox checked iff `parseInt(key)` is selected and reporting `parseInt(key)`; staging box at most once, only when staging is shown and list "1" exists, right after box "1", holding the "new" group |
| ListContainer.RenderShownItems | src/components/ListContainer.jsx:33-93 | every item is drawn exactly once, except the "new" items, which are drawn nowhere unless staging is shown and list "1" exists (so after Update they are hidden) |
| ListContainer.RegularBoxesHoldTheirGroup | src/components/ListContainer.jsx:33-47 | every item in a regular box belongs to that box's list, which is never "new" |
| ListContainer.MovesGoThroughStaging | src/components/ListContainer.jsx:53-88 | every button of a regular box exists only while staging is shown, is on box "1" or "2" and moves to "new"; staging buttons move to "1" or "2"; nothing moves directly between 1 and 2 |
| ListContainer.StagingBoxLost | src/components/ListContainer.jsx:74 | as written: with staging shown, no list "1" and some "new" item, no staging box is drawn and the "new" items are drawn nowhere |
| ListContainer.RenderFixedAgrees | src/components/ListContainer.jsx:74-93 | the corrected layout succeeds exactly when the original does, and equals it while staging is hidden or list "1" exists |
| ListContainer.RenderFixedStaging | src/components/ListContainer.jsx:74-93 | corrected: exactly one staging box whenever staging is shown, and then every item is drawn exactly once |
| ListContainer.RenderFixedPlacement | src/components/ListContainer.jsx:74-93 | corrected: the staging box holds the "new" group and sits right after box "1", or first when there is no list "1" |
| Scenarios.MoveOnlyItemOfListOne | src/pages/Home.jsx:23-71 | loading lists 1 and 2, selecting both, creating the staging list and moving item 1 leaves item 1 in "new", the selection [1, 2], staging shown, no message |
| Scenarios.MoveThenCancel | src/pages/Home.jsx:74-78 | the same session followed by Cancel returns the loaded items, an empty selection and staging hidden |
| Scenarios.CreateWithOneSelected | src/pages/Home.jsx:57-59 | with one list selected, creating shows the fixed message and keeps staging hidden |
| Scenarios.LoadMalformed | src/pages/Home.jsx:28-34 | a body whose `lists` is not an array shows the error view |
| Scenarios.MoveBackThroughArrows | src/components/ListContainer.jsx:86-88 | an item of list 1 moved to the staging list and back by its arrow is in list `"1"` again, but as a string, so the collection differs from the loaded one |
| Scenarios.SessionLosesStagedItem | src/components/ListContainer.jsx:74 | after that session the container shows only list 2 (its one regular box has key "2"), with no staging box and without item 1 |
| Scenarios.SessionFixedKeepsStagedItem | src/components/ListContainer.jsx:74-93 | the corrected layout shows the staging box and both items for the same state |
| Scenarios.InheritedKeyThrows | src/components/ListContainer.jsx:20-23 | an item whose `list_number` is `"constructor"` makes the container throw |

## Left out

- `fetch`, `response.json()` and the console logging (src/pages/Home.jsx:19-21, 32, 82) are I/O. The outcome of a request is a parameter of `FetchData`.
- `useEffect` mounting and the Try Again button (src/pages/Home.jsx:39-41, 96) only decide when `fetchData` runs. `FetchData` may be called in any state.
- React's asynchronous, batched state updates are not modelled. Each handler applies all its updates as one step.
  - `handleCreateNewList` is modelled reading the current selection, not a stale closure.
  - `setCreateListError` inside the selection updater is modelled to run once per toggle, including under double-invoked updaters.
- The `!Array.isArray(lists)` guard (src/components/ListContainer.jsx:13) is not modelled. The page only ever passes an array, so `lists` is a sequence.
- Only integer list numbers are modelled. `String(n)` for non-integers, `-0`, `NaN` and magnitudes of 10^21 and above (exponent notation) is left out.
- `parseInt` is modelled with exact integers. Its rounding of values above 2^53 is left out.
- `selectedLists` is a sequence of `parseInt` results (`Number`), not of integers, because a text key gives `NaN`.
- Item fields are typed. Missing or non-string `name`/`description` are left out, and the "Invalid item" test is an empty-string test.
- The markup, CSS, headings, the spinner and error image, and React `key` props are left out. Duplicate React keys are not modelled.
- A move back through the arrows writes the string `"1"` or `"2"` (src/components/ListContainer.jsx:86-88), so an item loaded with a numeric list number comes back spelt as a string. The model proves that such a round trip keeps the items and their keys (`MoveBackByKey`), not that it restores the loaded collection; only Cancel does that.
- src/api/listApi.js is not part of this model. It is a fetch wrapper the page does not use.

## Findings

| source | as written | input that shows it | evidently intended | confidence | as-written member | corrected member |
|---|---|---|---|---|---|---|
| src/components/ListContainer.jsx:74 | the staging box is drawn only inside the fragment of key "1" | load item 1 in list 1 and item 2 in list 2, select both, create, move item 1 to "new": no group "1" remains, so the staging box and item 1 are not drawn | the staging box is drawn whenever the staging list is shown (first when there is no list 1) | not executed | ListContainer.StagingBoxLost | ListContainer.RenderFixed |
