/**
 * ListContainer.jsx as a pure function of its props: group the items by
 * list_number into a plain object, lay the groups out in Object.keys order,
 * give each group other than "new" a box with a checkbox and fixed move
 * targets, and place the staging ("New List") box right after box "1".
 * The ListItem rule (an item without name or description renders
 * "Invalid item" and no buttons) is folded in as Buttons.
 */
module ListContainer {
  import opened Wrappers
  import opened Js
  import opened Items

  // ---------------------------------------------------------------------------
  // Grouping: the groupedLists reduce

  /** The key of each item, in input order. */
  function Keys(items: seq<Item>): (ks: seq<string>) {
    seq(|items|, i requires 0 <= i < |items| => KeyOf(items[i].listNumber))
  }

  /** The distinct keys of ks in the order they are first met. */
  function FirstSeen(ks: seq<string>): seq<string> {
    if ks == [] then []
    else
      var p := FirstSeen(ks[..|ks| - 1]);
      var k := ks[|ks| - 1];
      if k in p then p else p + [k]
  }

  /** FirstSeen keeps every key, and each only once. */
  lemma {:induction false} FirstSeenKeys(ks: seq<string>)
    ensures forall k :: k in FirstSeen(ks) <==> k in ks
    ensures Distinct(FirstSeen(ks))
  {
    if ks != [] {
      var p := ks[..|ks| - 1];
      var k := ks[|ks| - 1];
      assert ks == p + [k];
      FirstSeenKeys(p);
      var fp := FirstSeen(p);
      if k !in fp {
        var r := fp + [k];
        forall i, j | 0 <= i < j < |r| ensures r[i] != r[j] {
          if j < |fp| {
            assert r[i] == fp[i] && r[j] == fp[j];
          } else {
            assert r[i] in fp;
          }
        }
      }
    }
  }

  /** The items whose key is k, in input order. */
  function Members(items: seq<Item>, k: string): seq<Item> {
    if items == [] then []
    else
      var last := items[|items| - 1];
      Members(items[..|items| - 1], k) + (if KeyOf(last.listNumber) == k then [last] else [])
  }

  /** The accumulator object: its own keys in insertion order, and the array under each. */
  datatype Groups = Groups(order: seq<string>, entries: map<string, seq<Item>>)

  datatype Grouping = Grouped(groups: Groups) | PushOnInherited

  predicate PushThrows(items: seq<Item>) {
    exists i :: 0 <= i < |items| && IsInherited(KeyOf(items[i].listNumber))
  }

  /**
   * Keys that a plain object `{}` inherits from Object.prototype. For such a
   * key `acc[key]` is already truthy, so no array is created, and the
   * following `acc[key].push(item)` throws a TypeError.
   */
  predicate IsInherited(k: string) {
    InList(k, InheritedNames)
  }

  const InheritedNames: seq<string> := [
    "constructor", "hasOwnProperty", "isPrototypeOf", "propertyIsEnumerable",
    "toLocaleString", "toString", "valueOf", "__proto__",
    "__defineGetter__", "__defineSetter__", "__lookupGetter__", "__lookupSetter__"]

  predicate InList(k: string, names: seq<string>) {
    names != [] && (k == names[0] || InList(k, names[1..]))
  }

  /** What the reduce produces: each key once, in first-seen order, with its items. */
  function Group(items: seq<Item>): Grouping {
    if PushThrows(items) then PushOnInherited
    else
      Grouped(Groups(FirstSeen(Keys(items)), GroupMap(items)))
  }

  function GroupMap(items: seq<Item>): map<string, seq<Item>> {
    map k | k in FirstSeen(Keys(items)) :: Members(items, k)
  }

  lemma GroupMapSnoc(p: seq<Item>, x: Item)
    ensures var k := KeyOf(x.listNumber);
      GroupMap(p + [x]) == GroupMap(p)[k := Lookup(GroupMap(p), k) + [x]]
  {
    var k := KeyOf(x.listNumber);
    var m := GroupMap(p);
    var m' := GroupMap(p + [x]);
    var u := m[k := Lookup(m, k) + [x]];
    GroupMapSnocDomain(p, x);
    assert forall j :: j in m' <==> j in u;
    forall j | j in m' ensures m'[j] == u[j] {
      GroupMapSnocAt(p, x, j);
    }
  }

  lemma GroupMapSnocDomain(p: seq<Item>, x: Item)
    ensures forall j :: j in GroupMap(p + [x]) <==> j in GroupMap(p) || j == KeyOf(x.listNumber)
  {
    KeysSnoc(p, x);
    FirstSeenSnoc(Keys(p), KeyOf(x.listNumber));
  }

  lemma GroupMapSnocAt(p: seq<Item>, x: Item, j: string)
    requires j in GroupMap(p + [x])
    ensures GroupMap(p + [x])[j] ==
      Lookup(GroupMap(p), j) + (if j == KeyOf(x.listNumber) then [x] else [])
  {
    var k := KeyOf(x.listNumber);
    GroupMapSnocDomain(p, x);
    MembersSnoc(p, x, j);
    if j == k && k !in GroupMap(p) {
      FirstSeenKeys(Keys(p));
      MembersOfAbsentKey(p, k);
    }
  }

  lemma KeysSnoc(p: seq<Item>, x: Item)
    ensures Keys(p + [x]) == Keys(p) + [KeyOf(x.listNumber)]
  {
  }

  lemma FirstSeenSnoc(ks: seq<string>, k: string)
    ensures FirstSeen(ks + [k]) == if k in FirstSeen(ks) then FirstSeen(ks) else FirstSeen(ks) + [k]
  {
    assert (ks + [k])[..|ks + [k]| - 1] == ks;
  }

  lemma MembersSnoc(p: seq<Item>, x: Item, k: string)
    ensures Members(p + [x], k) == Members(p, k) + (if KeyOf(x.listNumber) == k then [x] else [])
  {
    assert (p + [x])[..|p + [x]| - 1] == p;
  }

  /** One step of the reduce keeps the accumulator equal to the grouping of the prefix. */
  lemma ReduceStep(lists: seq<Item>, i: int, order: seq<string>, acc: map<string, seq<Item>>)
    requires 0 <= i < |lists|
    requires order == FirstSeen(Keys(lists[..i])) && acc == GroupMap(lists[..i])
    ensures var key := KeyOf(lists[i].listNumber);
      && (key in acc <==> key in order)
      && (if key in acc then order else order + [key]) == FirstSeen(Keys(lists[..i + 1]))
      && acc[key := Lookup(acc, key) + [lists[i]]] == GroupMap(lists[..i + 1])
  {
    var done := lists[..i];
    assert lists[..i + 1] == done + [lists[i]];
    KeysSnoc(done, lists[i]);
    FirstSeenSnoc(Keys(done), KeyOf(lists[i].listNumber));
    GroupMapSnoc(done, lists[i]);
  }

  /** `lists.reduce(...)`: the accumulator is updated in place, one item at a time. */
  method GroupByListNumber(lists: seq<Item>) returns (r: Grouping)
    ensures r == Group(lists)
  {
    var order: seq<string> := [];
    var acc: map<string, seq<Item>> := map[];
    var i := 0;
    while i < |lists|
      invariant 0 <= i <= |lists|
      invariant order == FirstSeen(Keys(lists[..i]))
      invariant acc == GroupMap(lists[..i])
      invariant NoThrowBefore(lists, i)
    {
      var item := lists[i];
      var key := KeyOf(item.listNumber);
      if IsInherited(key) {
        assert PushThrows(lists);
        return PushOnInherited;
      }
      ReduceStep(lists, i, order, acc);
      var group := [];
      if key in acc {
        group := acc[key];
      } else {
        order := order + [key];
      }
      acc := acc[key := group + [item]];
      i := i + 1;
    }
    assert lists[..i] == lists;
    NoThrowBeforeAll(lists);
    r := Grouped(Groups(order, acc));
  }

  /** No key among the first i items is inherited. */
  predicate NoThrowBefore(items: seq<Item>, i: nat)
    requires i <= |items|
  {
    i == 0 || (NoThrowBefore(items, i - 1) && !IsInherited(KeyOf(items[i - 1].listNumber)))
  }

  lemma {:induction false} NoThrowBeforeAll(items: seq<Item>)
    ensures NoThrowBefore(items, |items|) <==> !PushThrows(items)
  {
    NoThrowBeforeMeans(items, |items|);
  }

  lemma {:induction false} NoThrowBeforeMeans(items: seq<Item>, i: nat)
    requires i <= |items|
    ensures NoThrowBefore(items, i) <==> forall j :: 0 <= j < i ==> !IsInherited(KeyOf(items[j].listNumber))
  {
    if i > 0 {
      NoThrowBeforeMeans(items, i - 1);
    }
  }

  function Lookup(entries: map<string, seq<Item>>, k: string): seq<Item> {
    if k in entries then entries[k] else []
  }

  /** The groups of keys ks, one after another. */
  function Concat(ks: seq<string>, entries: map<string, seq<Item>>): seq<Item> {
    if ks == [] then [] else Lookup(entries, ks[0]) + Concat(ks[1..], entries)
  }

  function ConcatMembers(ks: seq<string>, items: seq<Item>): seq<Item> {
    if ks == [] then [] else Members(items, ks[0]) + ConcatMembers(ks[1..], items)
  }

  lemma {:induction false} ConcatMembersSnoc(ks: seq<string>, p: seq<Item>, x: Item)
    requires Distinct(ks)
    ensures multiset(ConcatMembers(ks, p + [x])) ==
            multiset(ConcatMembers(ks, p)) + (if KeyOf(x.listNumber) in ks then multiset{x} else multiset{})
  {
    if ks != [] {
      var k := ks[0];
      var tail := ks[1..];
      var key := KeyOf(x.listNumber);
      DistinctTail(ks);
      ConcatMembersSnoc(tail, p, x);
      MembersSnoc(p, x, k);
      assert key in ks <==> key == k || key in tail by {
        assert ks == [k] + tail;
      }
      var a := multiset(Members(p, k));
      var b := multiset(ConcatMembers(tail, p));
      var c: multiset<Item> := if key == k then multiset{x} else multiset{};
      var d: multiset<Item> := if key in tail then multiset{x} else multiset{};
      assert multiset(Members(p + [x], k)) == a + c;
      assert multiset(ConcatMembers(ks, p + [x])) == (a + c) + (b + d);
      assert multiset(ConcatMembers(ks, p)) == a + b;
      assert c + d == if key in ks then multiset{x} else multiset{};
      Rearrange(a, c, b, d);
    }
  }

  /** Any duplicate-free key sequence covering every item's key splits the items without loss. */
  lemma {:induction false} ConcatMembersPartition(ks: seq<string>, items: seq<Item>)
    requires Distinct(ks)
    requires forall i :: 0 <= i < |items| ==> KeyOf(items[i].listNumber) in ks
    ensures multiset(ConcatMembers(ks, items)) == multiset(items)
  {
    if items == [] {
      ConcatMembersEmpty(ks);
    } else {
      var p := items[..|items| - 1];
      var x := items[|items| - 1];
      assert items == p + [x];
      ConcatMembersPartition(ks, p);
      ConcatMembersSnoc(ks, p, x);
    }
  }

  lemma {:induction false} ConcatMembersEmpty(ks: seq<string>)
    ensures ConcatMembers(ks, []) == []
  {
    if ks != [] {
      ConcatMembersEmpty(ks[1..]);
    }
  }

  lemma {:induction false} ConcatOfGroups(ks: seq<string>, items: seq<Item>, entries: map<string, seq<Item>>)
    requires forall k :: k in ks ==> k in entries && entries[k] == Members(items, k)
    ensures Concat(ks, entries) == ConcatMembers(ks, items)
  {
    if ks != [] {
      ConcatOfGroups(ks[1..], items, entries);
    }
  }

  lemma {:induction false} MembersOfAbsentKey(items: seq<Item>, k: string)
    requires k !in Keys(items)
    ensures Members(items, k) == []
  {
    if items != [] {
      var p := items[..|items| - 1];
      assert Keys(p) == Keys(items)[..|items| - 1];
      assert Keys(items)[|items| - 1] == KeyOf(items[|items| - 1].listNumber);
      MembersOfAbsentKey(p, k);
    }
  }

  /** An item is in the group of k exactly when it is one of the items and its key is k. */
  lemma {:induction false} MemberIff(items: seq<Item>, k: string, x: Item)
    ensures x in Members(items, k) <==> x in items && KeyOf(x.listNumber) == k
  {
    if items != [] {
      var p := items[..|items| - 1];
      var last := items[|items| - 1];
      assert items == p + [last];
      MemberIff(p, k, x);
    }
  }

  /** Grouping is a filter: the members from a + b are those from a followed by those from b. */
  lemma {:induction false} MembersAppend(a: seq<Item>, b: seq<Item>, k: string)
    ensures Members(a + b, k) == Members(a, k) + Members(b, k)
  {
    if b != [] {
      var c := b[..|b| - 1];
      var x := b[|b| - 1];
      assert b == c + [x];
      assert a + b == (a + c) + [x];
      MembersAppend(a, c, k);
      MembersSnoc(a + c, x, k);
      MembersSnoc(c, x, k);
    } else {
      assert a + b == a;
    }
  }

  /** The first index of k in ks. */
  function FirstIndex(ks: seq<string>, k: string): (i: nat)
    requires k in ks
    ensures i < |ks| && ks[i] == k
    ensures forall j :: 0 <= j < i ==> ks[j] != k
  {
    if ks[0] == k then 0 else 1 + FirstIndex(ks[1..], k)
  }

  lemma FirstIndexUnique(ks: seq<string>, k: string, i: nat)
    requires i < |ks| && ks[i] == k
    requires forall j :: 0 <= j < i ==> ks[j] != k
    ensures FirstIndex(ks, k) == i
  {
  }

  /** FirstSeen lists the keys by the position of their first occurrence. */
  lemma {:induction false} FirstSeenOrder(ks: seq<string>)
    ensures var r := FirstSeen(ks);
      && (forall k :: k in r ==> k in ks)
      && (forall i, j :: 0 <= i < j < |r| ==> FirstIndex(ks, r[i]) < FirstIndex(ks, r[j]))
  {
    FirstSeenKeys(ks);
    if ks != [] {
      var p := ks[..|ks| - 1];
      var k := ks[|ks| - 1];
      assert ks == p + [k];
      FirstSeenOrder(p);
      FirstSeenKeys(p);
      var fp := FirstSeen(p);
      var r := FirstSeen(ks);
      forall x | x in p ensures FirstIndex(ks, x) == FirstIndex(p, x) {
        FirstIndexUnique(ks, x, FirstIndex(p, x));
      }
      if k !in fp {
        FirstIndexUnique(ks, k, |ks| - 1);
        forall i, j | 0 <= i < j < |r| ensures FirstIndex(ks, r[i]) < FirstIndex(ks, r[j]) {
          assert r[i] == fp[i] && r[i] in p;
          assert FirstIndex(ks, r[i]) == FirstIndex(p, r[i]) < |p|;
          if j < |fp| {
            assert r[j] == fp[j] && r[j] in p;
            assert FirstIndex(p, fp[i]) < FirstIndex(p, fp[j]);
          }
        }
      } else {
        forall i, j | 0 <= i < j < |r| ensures FirstIndex(ks, r[i]) < FirstIndex(ks, r[j]) {
          assert r[i] in p && r[j] in p;
          assert FirstIndex(p, fp[i]) < FirstIndex(p, fp[j]);
        }
      }
    }
  }

  /** Every item's key gets a group, and there is no other group. */
  lemma {:induction false} GroupKeys(lists: seq<Item>)
    ensures forall i :: 0 <= i < |lists| ==> KeyOf(lists[i].listNumber) in GroupMap(lists)
    ensures forall k :: k in GroupMap(lists) <==> k in Keys(lists)
    ensures Distinct(FirstSeen(Keys(lists)))
  {
    FirstSeenKeys(Keys(lists));
    forall i | 0 <= i < |lists| ensures KeyOf(lists[i].listNumber) in GroupMap(lists) {
      assert Keys(lists)[i] == KeyOf(lists[i].listNumber);
    }
  }

  /** A group holds exactly the items whose key is its key. */
  lemma GroupMembers(lists: seq<Item>)
    ensures forall k, x :: k in GroupMap(lists) ==>
      (x in GroupMap(lists)[k] <==> x in lists && KeyOf(x.listNumber) == k)
  {
    forall k, x | k in GroupMap(lists)
      ensures x in GroupMap(lists)[k] <==> x in lists && KeyOf(x.listNumber) == k
    {
      MemberIff(lists, k, x);
    }
  }

  /** Laid out in Object.keys order, the groups hold every item exactly once. */
  lemma GroupLayout(lists: seq<Item>)
    ensures multiset(Concat(ObjectKeys(FirstSeen(Keys(lists))), GroupMap(lists))) == multiset(lists)
  {
    var order := FirstSeen(Keys(lists));
    var entries := GroupMap(lists);
    var keys := ObjectKeys(order);
    GroupKeys(lists);
    ObjectKeysOrder(order);
    DistinctPermutation(order, keys);
    assert forall k :: k in keys <==> k in order by {
      forall k ensures k in keys <==> k in order {
        assert k in keys <==> k in multiset(keys);
        assert k in order <==> k in multiset(order);
      }
    }
    ConcatOfGroups(keys, lists, entries);
    ConcatMembersPartition(keys, lists);
  }

  /**
   * The reduce splits the items into groups: every item's key has a group;
   * a group holds the items with its key, in input order (GroupMembers says
   * these are exactly the items with that key); the groups
   * are created in the order their keys are first met; and laid out in
   * Object.keys order, the groups hold every item exactly once.
   */
  lemma GroupingIsPartition(lists: seq<Item>)
    requires Group(lists).Grouped?
    ensures var g := Group(lists).groups;
      && (forall i :: 0 <= i < |lists| ==> KeyOf(lists[i].listNumber) in g.entries)
      && (forall k :: k in g.entries ==> g.entries[k] == Members(lists, k))
      && (forall k :: k in g.order <==> k in g.entries)
      && (forall k :: k in g.order ==> k in Keys(lists))
      && (forall i, j :: 0 <= i < j < |g.order| ==>
            FirstIndex(Keys(lists), g.order[i]) < FirstIndex(Keys(lists), g.order[j]))
      && multiset(Concat(ObjectKeys(g.order), g.entries)) == multiset(lists)
  {
    var g := Group(lists).groups;
    assert g == Groups(FirstSeen(Keys(lists)), GroupMap(lists));
    GroupKeys(lists);
    FirstSeenOrder(Keys(lists));
    GroupLayout(lists);
  }

  // ---------------------------------------------------------------------------
  // Object.keys order (OrdinaryOwnPropertyKeys, section 10.1.11.1 of ECMA-262)

  function IndexKeys(ks: seq<string>): (r: seq<IndexKey>) {
    if ks == [] then []
    else
      var head: seq<IndexKey> := if IsArrayIndex(ks[0]) then [ks[0]] else [];
      head + IndexKeys(ks[1..])
  }

  function NonIndexKeys(ks: seq<string>): (r: seq<string>)
    ensures forall k :: k in r ==> !IsArrayIndex(k)
  {
    if ks == [] then []
    else (if IsArrayIndex(ks[0]) then [] else [ks[0]]) + NonIndexKeys(ks[1..])
  }

  /** Insert k into an ascending sequence, before the first key of larger or equal value. */
  function InsertByValue(k: IndexKey, sorted: seq<IndexKey>): seq<IndexKey> {
    if sorted == [] || IndexValue(k) <= IndexValue(sorted[0]) then [k] + sorted
    else [sorted[0]] + InsertByValue(k, sorted[1..])
  }

  predicate Ascending(ks: seq<IndexKey>) {
    forall i, j :: 0 <= i < j < |ks| ==> IndexValue(ks[i]) <= IndexValue(ks[j])
  }

  lemma {:induction false} InsertByValueCount(k: IndexKey, sorted: seq<IndexKey>)
    ensures multiset(InsertByValue(k, sorted)) == multiset(sorted) + multiset{k}
  {
    if !(sorted == [] || IndexValue(k) <= IndexValue(sorted[0])) {
      InsertByValueCount(k, sorted[1..]);
      assert sorted == [sorted[0]] + sorted[1..];
    }
  }

  lemma AscendingCons(x: IndexKey, s: seq<IndexKey>)
    requires Ascending(s)
    requires s != [] ==> IndexValue(x) <= IndexValue(s[0])
    ensures Ascending([x] + s)
  {
    var r := [x] + s;
    forall i, j | 0 <= i < j < |r| ensures IndexValue(r[i]) <= IndexValue(r[j]) {
      if i == 0 {
        assert r[j] == s[j - 1];
        assert IndexValue(s[0]) <= IndexValue(s[j - 1]) || j - 1 == 0;
      } else {
        assert r[i] == s[i - 1] && r[j] == s[j - 1];
      }
    }
  }

  lemma AscendingTail(s: seq<IndexKey>)
    requires s != [] && Ascending(s)
    ensures Ascending(s[1..])
  {
    var t := s[1..];
    forall i, j | 0 <= i < j < |t| ensures IndexValue(t[i]) <= IndexValue(t[j]) {
      assert t[i] == s[i + 1] && t[j] == s[j + 1];
    }
  }

  lemma InsertByValueHead(k: IndexKey, sorted: seq<IndexKey>)
    ensures InsertByValue(k, sorted) != []
    ensures InsertByValue(k, sorted)[0] == k || (sorted != [] && InsertByValue(k, sorted)[0] == sorted[0])
  {
  }

  lemma {:induction false} InsertByValueAscending(k: IndexKey, sorted: seq<IndexKey>)
    requires Ascending(sorted)
    ensures Ascending(InsertByValue(k, sorted))
  {
    if sorted == [] || IndexValue(k) <= IndexValue(sorted[0]) {
      AscendingCons(k, sorted);
    } else {
      var tail := sorted[1..];
      AscendingTail(sorted);
      InsertByValueAscending(k, tail);
      InsertByValueHead(k, tail);
      var rest := InsertByValue(k, tail);
      assert tail != [] ==> IndexValue(sorted[0]) <= IndexValue(tail[0]) by {
        if tail != [] {
          assert tail[0] == sorted[1];
        }
      }
      AscendingCons(sorted[0], rest);
    }
  }

  /** Insertion sort by numeric value. */
  function SortByValue(ks: seq<IndexKey>): seq<IndexKey> {
    if ks == [] then [] else InsertByValue(ks[0], SortByValue(ks[1..]))
  }

  lemma {:induction false} SortByValueSorts(ks: seq<IndexKey>)
    ensures multiset(SortByValue(ks)) == multiset(ks)
    ensures Ascending(SortByValue(ks))
  {
    if ks != [] {
      SortByValueSorts(ks[1..]);
      InsertByValueCount(ks[0], SortByValue(ks[1..]));
      InsertByValueAscending(ks[0], SortByValue(ks[1..]));
      assert ks == [ks[0]] + ks[1..];
    }
  }

  /** Object.keys: array-index keys in ascending numeric order, then the others as inserted. */
  function ObjectKeys(order: seq<string>): seq<string> {
    SortByValue(IndexKeys(order)) + NonIndexKeys(order)
  }

  lemma {:induction false} SplitKeys(ks: seq<string>)
    ensures multiset(IndexKeys(ks)) + multiset(NonIndexKeys(ks)) == multiset(ks)
  {
    if ks != [] {
      SplitKeys(ks[1..]);
      assert ks == [ks[0]] + ks[1..];
    }
  }

  lemma {:induction false} NonIndexKeysAppend(a: seq<string>, b: seq<string>)
    ensures NonIndexKeys(a + b) == NonIndexKeys(a) + NonIndexKeys(b)
  {
    if a == [] {
      assert a + b == b;
    } else {
      assert (a + b)[1..] == a[1..] + b;
      NonIndexKeysAppend(a[1..], b);
    }
  }

  lemma {:induction false} NonIndexKeysOf(ks: seq<string>)
    ensures (forall i :: 0 <= i < |ks| ==> IsArrayIndex(ks[i])) ==> NonIndexKeys(ks) == []
    ensures (forall i :: 0 <= i < |ks| ==> !IsArrayIndex(ks[i])) ==> NonIndexKeys(ks) == ks
  {
    if ks != [] {
      NonIndexKeysOf(ks[1..]);
    }
  }

  /** Where each key of ObjectKeys(order) comes from: the sorted index keys, then the rest. */
  lemma ObjectKeysPositions(order: seq<string>)
    ensures var r := ObjectKeys(order);
      forall i :: 0 <= i < |r| ==> (IsArrayIndex(r[i]) <==> i < |SortByValue(IndexKeys(order))|)
  {
    var s := SortByValue(IndexKeys(order));
    var n := NonIndexKeys(order);
    var r := ObjectKeys(order);
    forall i | 0 <= i < |r| ensures IsArrayIndex(r[i]) <==> i < |s| {
      if i < |s| {
        assert r[i] == s[i];
      } else {
        assert r[i] == n[i - |s|];
        assert r[i] in n;
      }
    }
  }

  lemma ObjectKeysCount(order: seq<string>)
    ensures multiset(ObjectKeys(order)) == multiset(order)
  {
    SortByValueSorts(IndexKeys(order));
    SplitKeys(order);
  }

  lemma ObjectKeysIndexFirst(order: seq<string>)
    ensures var r := ObjectKeys(order);
      forall i, j :: 0 <= i < j < |r| && IsArrayIndex(r[j]) ==> IsArrayIndex(r[i])
  {
    ObjectKeysPositions(order);
  }

  lemma ObjectKeysAscending(order: seq<string>)
    ensures var r := ObjectKeys(order);
      forall i, j :: 0 <= i < j < |r| && IsArrayIndex(r[i]) && IsArrayIndex(r[j]) ==>
        IndexValue(r[i]) <= IndexValue(r[j])
  {
    var s := SortByValue(IndexKeys(order));
    var r := ObjectKeys(order);
    SortByValueSorts(IndexKeys(order));
    ObjectKeysPositions(order);
    forall i, j | 0 <= i < j < |r| && IsArrayIndex(r[i]) && IsArrayIndex(r[j])
      ensures IndexValue(r[i]) <= IndexValue(r[j])
    {
      assert r[i] == s[i] && r[j] == s[j];
    }
  }

  lemma ObjectKeysRest(order: seq<string>)
    ensures NonIndexKeys(ObjectKeys(order)) == NonIndexKeys(order)
  {
    var s := SortByValue(IndexKeys(order));
    var n := NonIndexKeys(order);
    NonIndexKeysAppend(s, n);
    NonIndexKeysOf(s);
    NonIndexKeysOf(n);
  }

  /**
   * Object.keys order: the same keys; every array-index key before every
   * other key; array-index keys ascending by value; the other keys in the
   * order they were inserted.
   */
  lemma ObjectKeysOrder(order: seq<string>)
    ensures var r := ObjectKeys(order);
      && multiset(r) == multiset(order)
      && (forall i, j :: 0 <= i < j < |r| && IsArrayIndex(r[j]) ==> IsArrayIndex(r[i]))
      && (forall i, j :: 0 <= i < j < |r| && IsArrayIndex(r[i]) && IsArrayIndex(r[j]) ==>
            IndexValue(r[i]) <= IndexValue(r[j]))
      && NonIndexKeys(r) == NonIndexKeys(order)
  {
    ObjectKeysCount(order);
    ObjectKeysIndexFirst(order);
    ObjectKeysAscending(order);
    ObjectKeysRest(order);
  }

  // ---------------------------------------------------------------------------
  // Rendering

  /** onMoveLeft of a regular box (lines 53-59). */
  function MoveLeftTarget(showEmptyList: bool, key: string): Option<Label> {
    if showEmptyList && key == "2" then Some(Text("new"))
    else if showEmptyList && key == "new" then Some(Text("1"))
    else None
  }

  /** onMoveRight of a regular box (lines 60-66). */
  function MoveRightTarget(showEmptyList: bool, key: string): Option<Label> {
    if showEmptyList && key == "1" then Some(Text("new"))
    else if showEmptyList && key == "new" then Some(Text("2"))
    else None
  }

  /**
   * One box of the container. A regular box has the checkbox of its key and
   * hands the same showArrows flag and the same move targets to each of its
   * ListItems (each handler calls moveItem(id, target) with the item's own
   * id); the staging box always shows arrows, left to "1" and right to "2".
   */
  datatype Box =
    | ListBox(key: string, checked: bool, onChange: Number, items: seq<Item>,
              showArrows: bool, onMoveLeft: Option<Label>, onMoveRight: Option<Label>)
    | NewListBox(items: seq<Item>)

  datatype View = NoListsAvailable | Container(boxes: seq<Box>) | RenderThrows

  /** The box for a key other than "new" (lines 33-71). */
  function RegularBox(key: string, entries: map<string, seq<Item>>, selected: seq<Number>, showEmptyList: bool): Box {
    ListBox(key, ParseInt(key) in selected, ParseInt(key), Lookup(entries, key),
            showEmptyList, MoveLeftTarget(showEmptyList, key), MoveRightTarget(showEmptyList, key))
  }

  /** The fragment rendered for one key (lines 31-94); `groupedLists["new"]?.map` draws nothing without a "new" group. */
  function KeyFragment(key: string, entries: map<string, seq<Item>>, selected: seq<Number>, showEmptyList: bool): seq<Box> {
    (if key != "new" then [RegularBox(key, entries, selected, showEmptyList)] else [])
    + (if showEmptyList && key == "1" then [NewListBox(Lookup(entries, "new"))] else [])
  }

  function Layout(keys: seq<string>, entries: map<string, seq<Item>>, selected: seq<Number>, showEmptyList: bool): seq<Box> {
    if keys == [] then []
    else KeyFragment(keys[0], entries, selected, showEmptyList) + Layout(keys[1..], entries, selected, showEmptyList)
  }

  /** The whole component: the empty-input guard, the reduce, then one fragment per key. */
  function Render(lists: seq<Item>, selectedLists: seq<Number>, showEmptyList: bool): (v: View)
    ensures v == NoListsAvailable <==> |lists| == 0
    ensures v == RenderThrows <==> |lists| > 0 && PushThrows(lists)
  {
    if |lists| == 0 then NoListsAvailable
    else
      match Group(lists)
      case PushOnInherited => RenderThrows
      case Grouped(g) => Container(Layout(ObjectKeys(g.order), g.entries, selectedLists, showEmptyList))
  }

  /** The props one ListItem receives; each handler is the list it would pass to moveItem. */
  datatype ItemView = ItemView(item: Item, showArrows: bool, onMoveLeft: Option<Label>, onMoveRight: Option<Label>)

  function ItemViews(b: Box): seq<ItemView> {
    match b
    case ListBox(_, _, _, items, arrows, left, right) =>
      seq(|items|, i requires 0 <= i < |items| => ItemView(items[i], arrows, left, right))
    case NewListBox(items) =>
      seq(|items|, i requires 0 <= i < |items| => ItemView(items[i], true, Some(Text("1")), Some(Text("2"))))
  }

  /**
   * ListItem.jsx: the targets of the arrow buttons actually drawn. An item
   * whose name or description is empty renders "Invalid item" and no button.
   */
  function Buttons(v: ItemView): (targets: seq<Label>)
    ensures v.item.name == "" || v.item.description == "" || !v.showArrows ==> targets == []
    ensures forall t :: t in targets ==> Some(t) == v.onMoveLeft || Some(t) == v.onMoveRight
    ensures v.item.name != "" && v.item.description != "" && v.showArrows ==>
      && |targets| == (if v.onMoveLeft.Some? then 1 else 0) + (if v.onMoveRight.Some? then 1 else 0)
      && (v.onMoveLeft.Some? ==> targets[0] == v.onMoveLeft.value)
      && (v.onMoveRight.Some? ==> targets[|targets| - 1] == v.onMoveRight.value)
  {
    if v.item.name == "" || v.item.description == "" || !v.showArrows then []
    else
      (match v.onMoveLeft case Some(t) => [t] case None => [])
      + (match v.onMoveRight case Some(t) => [t] case None => [])
  }

  // Observations on a list of boxes.

  function ListBoxKeys(boxes: seq<Box>): seq<string> {
    if boxes == [] then []
    else (if boxes[0].ListBox? then [boxes[0].key] else []) + ListBoxKeys(boxes[1..])
  }

  function NewListBoxCount(boxes: seq<Box>): nat {
    if boxes == [] then 0
    else (if boxes[0].NewListBox? then 1 else 0) + NewListBoxCount(boxes[1..])
  }

  /** Every item drawn, counted with multiplicity. */
  function ShownItems(boxes: seq<Box>): multiset<Item> {
    if boxes == [] then multiset{} else multiset(boxes[0].items) + ShownItems(boxes[1..])
  }

  /** The keys other than "new", in order. */
  function NonNew(keys: seq<string>): seq<string> {
    if keys == [] then [] else (if keys[0] != "new" then [keys[0]] else []) + NonNew(keys[1..])
  }

  lemma {:induction false} ListBoxKeysAppend(a: seq<Box>, b: seq<Box>)
    ensures ListBoxKeys(a + b) == ListBoxKeys(a) + ListBoxKeys(b)
  {
    if a == [] {
      assert a + b == b;
    } else {
      assert (a + b)[1..] == a[1..] + b;
      ListBoxKeysAppend(a[1..], b);
    }
  }

  lemma {:induction false} NewListBoxCountAppend(a: seq<Box>, b: seq<Box>)
    ensures NewListBoxCount(a + b) == NewListBoxCount(a) + NewListBoxCount(b)
  {
    if a == [] {
      assert a + b == b;
    } else {
      assert (a + b)[1..] == a[1..] + b;
      NewListBoxCountAppend(a[1..], b);
    }
  }

  lemma {:induction false} ShownItemsAppend(a: seq<Box>, b: seq<Box>)
    ensures ShownItems(a + b) == ShownItems(a) + ShownItems(b)
  {
    if a == [] {
      assert a + b == b;
    } else {
      assert (a + b)[1..] == a[1..] + b;
      ShownItemsAppend(a[1..], b);
    }
  }

  /**
   * A regular box: never for "new"; checked exactly when parseInt of its key
   * is selected; its items are its group; arrows only while the staging list
   * is open, and then only list "2" moves left and only list "1" moves right,
   * both into "new". (The `listNum === "new"` branches of lines 56-57 and
   * 63-64 can never be taken, since no regular box has key "new".)
   */
  predicate ListBoxWired(b: Box, entries: map<string, seq<Item>>, selected: seq<Number>, showEmptyList: bool)
    requires b.ListBox?
  {
    && b.key != "new"
    && (b.checked <==> ParseInt(b.key) in selected)
    && b.onChange == ParseInt(b.key)
    && b.items == Lookup(entries, b.key)
    && b.showArrows == showEmptyList
    && b.onMoveLeft == (if showEmptyList && b.key == "2" then Some(Text("new")) else None)
    && b.onMoveRight == (if showEmptyList && b.key == "1" then Some(Text("new")) else None)
  }

  /**
   * Every regular box is wired as ListBoxWired says, and every staging box
   * comes right after the box of list "1" and holds the "new" group.
   */
  predicate BoxesWired(l: seq<Box>, entries: map<string, seq<Item>>, selected: seq<Number>, showEmptyList: bool) {
    && (forall j :: 0 <= j < |l| && l[j].ListBox? ==> ListBoxWired(l[j], entries, selected, showEmptyList))
    && (forall j :: 0 <= j < |l| && l[j].NewListBox? ==>
          && showEmptyList && 0 < j && l[j - 1].ListBox? && l[j - 1].key == "1"
          && l[j].items == Lookup(entries, "new"))
  }

  lemma FragmentListBoxKeys(k: string, entries: map<string, seq<Item>>, selected: seq<Number>, showEmptyList: bool)
    ensures ListBoxKeys(KeyFragment(k, entries, selected, showEmptyList)) == if k != "new" then [k] else []
  {
    var f := KeyFragment(k, entries, selected, showEmptyList);
    if k != "new" {
      assert f[0].ListBox? && f[0].key == k;
      assert f[1..] == [] || f[1..] == [NewListBox(Lookup(entries, "new"))];
      assert ListBoxKeys(f[1..]) == [];
      assert ListBoxKeys(f) == [k] + [];
    }
  }

  lemma FragmentNewListBoxCount(k: string, entries: map<string, seq<Item>>, selected: seq<Number>, showEmptyList: bool)
    ensures NewListBoxCount(KeyFragment(k, entries, selected, showEmptyList)) == if showEmptyList && k == "1" then 1 else 0
  {
    var f := KeyFragment(k, entries, selected, showEmptyList);
    var staged := [NewListBox(Lookup(entries, "new"))];
    assert NewListBoxCount(staged) == 1 by {
      assert staged[1..] == [];
    }
    if k != "new" {
      if showEmptyList && k == "1" {
        assert f[1..] == staged;
      } else {
        assert f[1..] == [];
      }
    }
  }

  lemma FragmentShownItems(k: string, entries: map<string, seq<Item>>, selected: seq<Number>, showEmptyList: bool)
    ensures ShownItems(KeyFragment(k, entries, selected, showEmptyList)) ==
      (if k != "new" then multiset(Lookup(entries, k)) else multiset{})
      + (if showEmptyList && k == "1" then multiset(Lookup(entries, "new")) else multiset{})
  {
    var f := KeyFragment(k, entries, selected, showEmptyList);
    var staged := [NewListBox(Lookup(entries, "new"))];
    assert ShownItems(staged) == multiset(Lookup(entries, "new")) by {
      assert staged[1..] == [];
    }
    if k != "new" {
      assert f[0].items == Lookup(entries, k);
      if showEmptyList && k == "1" {
        assert f[1..] == staged;
      } else {
        assert f[1..] == [];
      }
    }
  }

  lemma FragmentWiring(k: string, entries: map<string, seq<Item>>, selected: seq<Number>, showEmptyList: bool)
    ensures BoxesWired(KeyFragment(k, entries, selected, showEmptyList), entries, selected, showEmptyList)
  {
    var f := KeyFragment(k, entries, selected, showEmptyList);
    if k != "new" {
      var regular := RegularBox(k, entries, selected, showEmptyList);
      assert ListBoxWired(regular, entries, selected, showEmptyList);
      if showEmptyList && k == "1" {
        assert f == [regular, NewListBox(Lookup(entries, "new"))];
      } else {
        assert f == [regular];
      }
    }
  }

  lemma {:induction false} LayoutListBoxKeys(keys: seq<string>, entries: map<string, seq<Item>>, selected: seq<Number>, showEmptyList: bool)
    ensures ListBoxKeys(Layout(keys, entries, selected, showEmptyList)) == NonNew(keys)
  {
    if keys != [] {
      FragmentListBoxKeys(keys[0], entries, selected, showEmptyList);
      LayoutListBoxKeys(keys[1..], entries, selected, showEmptyList);
      ListBoxKeysAppend(KeyFragment(keys[0], entries, selected, showEmptyList), Layout(keys[1..], entries, selected, showEmptyList));
    }
  }

  lemma {:induction false} LayoutNewListBoxCount(keys: seq<string>, entries: map<string, seq<Item>>, selected: seq<Number>, showEmptyList: bool)
    requires Distinct(keys)
    ensures NewListBoxCount(Layout(keys, entries, selected, showEmptyList)) == if showEmptyList && "1" in keys then 1 else 0
  {
    if keys != [] {
      DistinctTail(keys);
      assert "1" in keys <==> keys[0] == "1" || "1" in keys[1..] by {
        assert keys == [keys[0]] + keys[1..];
      }
      FragmentNewListBoxCount(keys[0], entries, selected, showEmptyList);
      LayoutNewListBoxCount(keys[1..], entries, selected, showEmptyList);
      NewListBoxCountAppend(KeyFragment(keys[0], entries, selected, showEmptyList), Layout(keys[1..], entries, selected, showEmptyList));
    }
  }

  lemma ConcatNonNewCons(keys: seq<string>, entries: map<string, seq<Item>>)
    requires keys != []
    ensures keys[0] != "new" ==>
      Concat(NonNew(keys), entries) == Lookup(entries, keys[0]) + Concat(NonNew(keys[1..]), entries)
    ensures keys[0] == "new" ==> NonNew(keys) == NonNew(keys[1..])
  {
    var k := keys[0];
    var nn := NonNew(keys[1..]);
    if k != "new" {
      var c := [k] + nn;
      assert NonNew(keys) == c;
      assert c[0] == k && c[1..] == nn;
    } else {
      assert NonNew(keys) == [] + nn;
    }
  }

  /** Multiset union may be regrouped and reordered freely. */
  lemma Rearrange<T>(a: multiset<T>, b: multiset<T>, c: multiset<T>, d: multiset<T>)
    ensures (a + b) + (c + d) == (a + c) + (b + d)
  {
  }

  lemma {:induction false} LayoutShownItems(keys: seq<string>, entries: map<string, seq<Item>>, selected: seq<Number>, showEmptyList: bool)
    requires Distinct(keys)
    ensures ShownItems(Layout(keys, entries, selected, showEmptyList)) ==
      multiset(Concat(NonNew(keys), entries))
      + (if showEmptyList && "1" in keys then multiset(Lookup(entries, "new")) else multiset{})
  {
    if keys == [] {
      assert NonNew(keys) == [];
    } else {
      var k := keys[0];
      var tail := keys[1..];
      var f := KeyFragment(k, entries, selected, showEmptyList);
      var rest := Layout(tail, entries, selected, showEmptyList);
      DistinctTail(keys);
      assert "1" in keys <==> k == "1" || "1" in tail by {
        assert keys == [k] + tail;
      }
      FragmentShownItems(k, entries, selected, showEmptyList);
      LayoutShownItems(tail, entries, selected, showEmptyList);
      ShownItemsAppend(f, rest);
      ConcatNonNewCons(keys, entries);
      var own: multiset<Item> := if k != "new" then multiset(Lookup(entries, k)) else multiset{};
      assert multiset(Concat(NonNew(keys), entries)) == own + multiset(Concat(NonNew(tail), entries));
      var staged: multiset<Item> := if showEmptyList && k == "1" then multiset(Lookup(entries, "new")) else multiset{};
      var later: multiset<Item> := if showEmptyList && "1" in tail then multiset(Lookup(entries, "new")) else multiset{};
      var all: multiset<Item> := if showEmptyList && "1" in keys then multiset(Lookup(entries, "new")) else multiset{};
      var others := multiset(Concat(NonNew(tail), entries));
      assert staged + later == all;
      assert ShownItems(f) == own + staged;
      assert ShownItems(rest) == others + later;
      assert ShownItems(f + rest) == (own + staged) + (others + later);
      Rearrange(own, staged, others, later);
    }
  }

  lemma {:induction false} LayoutBoxes(keys: seq<string>, entries: map<string, seq<Item>>, selected: seq<Number>, showEmptyList: bool)
    ensures BoxesWired(Layout(keys, entries, selected, showEmptyList), entries, selected, showEmptyList)
  {
    if keys != [] {
      var f := KeyFragment(keys[0], entries, selected, showEmptyList);
      var rest := Layout(keys[1..], entries, selected, showEmptyList);
      FragmentWiring(keys[0], entries, selected, showEmptyList);
      LayoutBoxes(keys[1..], entries, selected, showEmptyList);
      BoxesWiredAppend(f, rest, entries, selected, showEmptyList);
    }
  }

  lemma BoxesWiredAppend(a: seq<Box>, b: seq<Box>, entries: map<string, seq<Item>>, selected: seq<Number>, showEmptyList: bool)
    requires BoxesWired(a, entries, selected, showEmptyList) && BoxesWired(b, entries, selected, showEmptyList)
    ensures BoxesWired(a + b, entries, selected, showEmptyList)
  {
    var l := a + b;
    forall j | 0 <= j < |l| && l[j].ListBox? ensures ListBoxWired(l[j], entries, selected, showEmptyList) {
      if j >= |a| {
        assert l[j] == b[j - |a|];
      } else {
        assert l[j] == a[j];
      }
    }
    forall j | 0 <= j < |l| && l[j].NewListBox?
      ensures showEmptyList && 0 < j && l[j - 1].ListBox? && l[j - 1].key == "1" && l[j].items == Lookup(entries, "new")
    {
      if j >= |a| {
        assert l[j] == b[j - |a|];
        if j - |a| > 0 {
          assert l[j - 1] == b[j - 1 - |a|];
        }
      } else {
        assert l[j] == a[j] && l[j - 1] == a[j - 1];
      }
    }
  }

  // ---------------------------------------------------------------------------
  // What the rendered container shows

  /** The keys Object.keys yields for the reduce: each item's key, each once. */
  lemma ObjectKeysOfGroups(lists: seq<Item>)
    ensures var keys := ObjectKeys(FirstSeen(Keys(lists)));
      Distinct(keys) && forall k :: k in keys <==> k in Keys(lists)
  {
    var order := FirstSeen(Keys(lists));
    var keys := ObjectKeys(order);
    FirstSeenKeys(Keys(lists));
    ObjectKeysCount(order);
    DistinctPermutation(order, keys);
    forall k ensures k in keys <==> k in Keys(lists) {
      assert k in keys <==> k in multiset(keys);
      assert k in order <==> k in multiset(order);
    }
  }

  /** The array under a key is its group, and a missing key reads as an empty group. */
  lemma LookupGroupMap(lists: seq<Item>, k: string)
    ensures Lookup(GroupMap(lists), k) == Members(lists, k)
  {
    if k !in GroupMap(lists) {
      FirstSeenKeys(Keys(lists));
      MembersOfAbsentKey(lists, k);
    }
  }

  /** When the reduce succeeds on a non-empty collection, the container is the layout of its groups. */
  lemma RenderedLayout(lists: seq<Item>, selected: seq<Number>, showEmptyList: bool)
    requires Render(lists, selected, showEmptyList).Container?
    ensures !PushThrows(lists)
    ensures Render(lists, selected, showEmptyList).boxes ==
      Layout(ObjectKeys(FirstSeen(Keys(lists))), GroupMap(lists), selected, showEmptyList)
  {
  }

  /** Without a "new" key, ms(Concat(keys)) is the part drawn in regular boxes; otherwise the "new" group is added. */
  lemma {:induction false} ConcatSplitNew(keys: seq<string>, entries: map<string, seq<Item>>)
    requires Distinct(keys)
    ensures multiset(Concat(keys, entries)) ==
      multiset(Concat(NonNew(keys), entries)) + (if "new" in keys then multiset(Lookup(entries, "new")) else multiset{})
  {
    if keys == [] {
      assert NonNew(keys) == [];
    } else {
      var k := keys[0];
      var tail := keys[1..];
      assert Distinct(tail) && k !in tail by {
        DistinctTail(keys);
      }
      ConcatSplitNew(tail, entries);
      ConcatSplitNewStep(keys, entries);
    }
  }

  /** One step of ConcatSplitNew, from the tail's split to the whole sequence's. */
  lemma ConcatSplitNewStep(keys: seq<string>, entries: map<string, seq<Item>>)
    requires keys != [] && keys[0] !in keys[1..]
    requires multiset(Concat(keys[1..], entries)) ==
      multiset(Concat(NonNew(keys[1..]), entries)) + (if "new" in keys[1..] then multiset(Lookup(entries, "new")) else multiset{})
    ensures multiset(Concat(keys, entries)) ==
      multiset(Concat(NonNew(keys), entries)) + (if "new" in keys then multiset(Lookup(entries, "new")) else multiset{})
  {
    assert "new" in keys <==> keys[0] == "new" || "new" in keys[1..] by {
      assert keys == [keys[0]] + keys[1..];
    }
    assert Concat(keys, entries) == Lookup(entries, keys[0]) + Concat(keys[1..], entries);
    ConcatNonNewCons(keys, entries);
    if keys[0] == "new" {
      StagedHead(multiset(Lookup(entries, "new")), multiset(Concat(keys[1..], entries)), multiset(Concat(NonNew(keys), entries)));
    } else {
      RegularHead(multiset(Lookup(entries, keys[0])), multiset(Concat(NonNew(keys[1..]), entries)),
        if "new" in keys[1..] then multiset(Lookup(entries, "new")) else multiset{});
    }
  }

  /** A staged head moves behind the regular part. */
  lemma StagedHead(own: multiset<Item>, tail: multiset<Item>, regular: multiset<Item>)
    requires tail == regular
    ensures own + tail == regular + own
  {
  }

  /** A regular head joins the regular part. */
  lemma RegularHead(own: multiset<Item>, regular: multiset<Item>, staged: multiset<Item>)
    ensures own + (regular + staged) == (own + regular) + staged
  {
  }

  /**
   * One regular box per group other than "new", in Object.keys order, each
   * wired as ListBoxWired says; and exactly one staging box, right after
   * the box of list "1", when the staging list is open and some item is in
   * list "1" — none otherwise.
   */
  lemma RenderBoxes(lists: seq<Item>, selected: seq<Number>, showEmptyList: bool)
    requires Render(lists, selected, showEmptyList).Container?
    ensures var boxes := Render(lists, selected, showEmptyList).boxes;
      && ListBoxKeys(boxes) == NonNew(ObjectKeys(FirstSeen(Keys(lists))))
      && NewListBoxCount(boxes) == (if showEmptyList && "1" in Keys(lists) then 1 else 0)
      && BoxesWired(boxes, GroupMap(lists), selected, showEmptyList)
  {
    RenderedLayout(lists, selected, showEmptyList);
    var keys := ObjectKeys(FirstSeen(Keys(lists)));
    ObjectKeysOfGroups(lists);
    LayoutListBoxKeys(keys, GroupMap(lists), selected, showEmptyList);
    LayoutNewListBoxCount(keys, GroupMap(lists), selected, showEmptyList);
    LayoutBoxes(keys, GroupMap(lists), selected, showEmptyList);
  }

  /**
   * Every item is drawn exactly once, except the items of list "new" while
   * no staging box is drawn: those are drawn nowhere.
   */
  lemma RenderShownItems(lists: seq<Item>, selected: seq<Number>, showEmptyList: bool)
    requires Render(lists, selected, showEmptyList).Container?
    ensures var boxes := Render(lists, selected, showEmptyList).boxes;
      ShownItems(boxes)
      + (if showEmptyList && "1" in Keys(lists) then multiset{} else multiset(Members(lists, "new")))
      == multiset(lists)
  {
    RenderedLayout(lists, selected, showEmptyList);
    var order := FirstSeen(Keys(lists));
    var keys := ObjectKeys(order);
    var entries := GroupMap(lists);
    ObjectKeysOfGroups(lists);
    LayoutShownItems(keys, entries, selected, showEmptyList);
    ConcatSplitNew(keys, entries);
    GroupLayout(lists);
    LookupGroupMap(lists, "new");
    if "new" !in keys {
      MembersOfAbsentKey(lists, "new");
    }
  }

  /** The arrows a box hands to its ListItems are the box's own. */
  lemma ViewsOfBox(b: Box, v: ItemView)
    requires v in ItemViews(b)
    ensures b.ListBox? ==> v.showArrows == b.showArrows && v.onMoveLeft == b.onMoveLeft && v.onMoveRight == b.onMoveRight
    ensures b.NewListBox? ==> v.showArrows && v.onMoveLeft == Some(Text("1")) && v.onMoveRight == Some(Text("2"))
  {
    var i :| 0 <= i < |ItemViews(b)| && ItemViews(b)[i] == v;
  }

  /**
   * Every drawn arrow moves an item into or out of the staging list: a
   * regular box offers arrows only while the staging list is open, only in
   * lists "1" and "2", and only towards "new"; the staging box offers only
   * "1" and "2". No single click moves an item between two regular lists.
   */
  lemma MovesGoThroughStaging(lists: seq<Item>, selected: seq<Number>, showEmptyList: bool)
    requires Render(lists, selected, showEmptyList).Container?
    ensures var boxes := Render(lists, selected, showEmptyList).boxes;
      forall b, v, t :: b in boxes && v in ItemViews(b) && t in Buttons(v) ==>
        && (b.ListBox? ==> showEmptyList && t == Text("new") && (b.key == "1" || b.key == "2"))
        && (b.NewListBox? ==> t == Text("1") || t == Text("2"))
  {
    var boxes := Render(lists, selected, showEmptyList).boxes;
    RenderBoxes(lists, selected, showEmptyList);
    forall b, v, t | b in boxes && v in ItemViews(b) && t in Buttons(v)
      ensures b.ListBox? ==> showEmptyList && t == Text("new") && (b.key == "1" || b.key == "2")
      ensures b.NewListBox? ==> t == Text("1") || t == Text("2")
    {
      ViewsOfBox(b, v);
      var j :| 0 <= j < |boxes| && boxes[j] == b;
      if b.ListBox? {
        assert ListBoxWired(boxes[j], GroupMap(lists), selected, showEmptyList);
      }
    }
  }

  // ---------------------------------------------------------------------------
  // The staging box without list "1"

  /**
   * As written, the staging box is drawn only inside the fragment of key
   * "1". Once no item is left in list "1" (for instance after every item of
   * list 1 was moved to "new"), the open staging list has no box, and every
   * item already moved to it is drawn nowhere.
   */
  lemma StagingBoxLost(lists: seq<Item>, selected: seq<Number>)
    requires Render(lists, selected, true).Container?
    requires "1" !in Keys(lists) && "new" in Keys(lists)
    ensures var boxes := Render(lists, selected, true).boxes;
      && NewListBoxCount(boxes) == 0
      && Members(lists, "new") != []
      && ShownItems(boxes) + multiset(Members(lists, "new")) == multiset(lists)
      && ShownItems(boxes) != multiset(lists)
  {
    var boxes := Render(lists, selected, true).boxes;
    RenderBoxes(lists, selected, true);
    RenderShownItems(lists, selected, true);
    var i :| 0 <= i < |Keys(lists)| && Keys(lists)[i] == "new";
    MemberIff(lists, "new", lists[i]);
    assert |multiset(Members(lists, "new"))| > 0;
  }

  /**
   * The evidently intended layout: the staging box right after the box of
   * list "1", or first when there is no list "1", so that it is drawn
   * whenever the staging list is open.
   */
  function RenderFixed(lists: seq<Item>, selectedLists: seq<Number>, showEmptyList: bool): View {
    match Render(lists, selectedLists, showEmptyList)
    case Container(boxes) =>
      if showEmptyList && "1" !in Keys(lists) then Container([NewListBox(Lookup(GroupMap(lists), "new"))] + boxes)
      else Container(boxes)
    case other => other
  }

  /** The fix changes nothing while list "1" exists or the staging list is closed. */
  lemma RenderFixedAgrees(lists: seq<Item>, selected: seq<Number>, showEmptyList: bool)
    ensures RenderFixed(lists, selected, showEmptyList).Container? <==> Render(lists, selected, showEmptyList).Container?
    ensures !showEmptyList || "1" in Keys(lists) ==> RenderFixed(lists, selected, showEmptyList) == Render(lists, selected, showEmptyList)
  {
  }

  lemma PrependStaging(x: seq<Item>, boxes: seq<Box>)
    ensures NewListBoxCount([NewListBox(x)] + boxes) == NewListBoxCount(boxes) + 1
    ensures ShownItems([NewListBox(x)] + boxes) == multiset(x) + ShownItems(boxes)
  {
    assert ([NewListBox(x)] + boxes)[1..] == boxes;
  }

  /**
   * With the fix, the open staging list always has exactly one box, and
   * every item is then drawn exactly once.
   */
  lemma RenderFixedStaging(lists: seq<Item>, selected: seq<Number>, showEmptyList: bool)
    requires RenderFixed(lists, selected, showEmptyList).Container?
    ensures var boxes := RenderFixed(lists, selected, showEmptyList).boxes;
      && NewListBoxCount(boxes) == (if showEmptyList then 1 else 0)
      && ShownItems(boxes) + (if showEmptyList then multiset{} else multiset(Members(lists, "new"))) == multiset(lists)
  {
    RenderBoxes(lists, selected, showEmptyList);
    RenderShownItems(lists, selected, showEmptyList);
    if showEmptyList && "1" !in Keys(lists) {
      LookupGroupMap(lists, "new");
      PrependStaging(Lookup(GroupMap(lists), "new"), Render(lists, selected, showEmptyList).boxes);
    }
  }

  /** With the fix, the staging box holds the "new" group and sits right after list "1", or first. */
  lemma RenderFixedPlacement(lists: seq<Item>, selected: seq<Number>, showEmptyList: bool)
    requires RenderFixed(lists, selected, showEmptyList).Container?
    ensures var boxes := RenderFixed(lists, selected, showEmptyList).boxes;
      forall j :: 0 <= j < |boxes| && boxes[j].NewListBox? ==>
        && boxes[j].items == Members(lists, "new")
        && ((j == 0 && "1" !in Keys(lists)) || (0 < j && boxes[j - 1].ListBox? && boxes[j - 1].key == "1"))
  {
    var plain := Render(lists, selected, showEmptyList).boxes;
    var boxes := RenderFixed(lists, selected, showEmptyList).boxes;
    RenderBoxes(lists, selected, showEmptyList);
    LookupGroupMap(lists, "new");
    if showEmptyList && "1" !in Keys(lists) {
      forall j | 0 <= j < |boxes| && boxes[j].NewListBox?
        ensures boxes[j].items == Members(lists, "new")
        ensures (j == 0 && "1" !in Keys(lists)) || (0 < j && boxes[j - 1].ListBox? && boxes[j - 1].key == "1")
      {
        if j > 0 {
          assert boxes[j] == plain[j - 1];
          assert boxes[j - 1] == plain[j - 2];
        }
      }
    }
  }

  lemma WiredBoxHoldsGroup(b: Box, lists: seq<Item>, selected: seq<Number>, showEmptyList: bool, x: Item)
    requires b.ListBox? && ListBoxWired(b, GroupMap(lists), selected, showEmptyList) && x in b.items
    ensures b.key != "new" && x in lists && KeyOf(x.listNumber) == b.key
  {
    LookupGroupMap(lists, b.key);
    MemberIff(lists, b.key, x);
  }

  /** Every item in a regular box belongs to that box's list, which is never "new". */
  predicate HoldTheirGroups(boxes: seq<Box>, lists: seq<Item>) {
    forall b, x :: b in boxes && b.ListBox? && x in b.items ==>
      b.key != "new" && x in lists && KeyOf(x.listNumber) == b.key
  }

  lemma WiredBoxesHoldGroups(boxes: seq<Box>, lists: seq<Item>, selected: seq<Number>, showEmptyList: bool)
    requires BoxesWired(boxes, GroupMap(lists), selected, showEmptyList)
    ensures HoldTheirGroups(boxes, lists)
  {
    forall b, x | b in boxes && b.ListBox? && x in b.items
      ensures b.key != "new" && x in lists && KeyOf(x.listNumber) == b.key
    {
      var j :| 0 <= j < |boxes| && boxes[j] == b;
      WiredBoxHoldsGroup(boxes[j], lists, selected, showEmptyList, x);
    }
  }

  /** Every item drawn in a regular box belongs to that box's list, which is never "new". */
  lemma RegularBoxesHoldTheirGroup(lists: seq<Item>, selected: seq<Number>, showEmptyList: bool)
    requires Render(lists, selected, showEmptyList).Container?
    ensures HoldTheirGroups(Render(lists, selected, showEmptyList).boxes, lists)
  {
    var boxes := Render(lists, selected, showEmptyList).boxes;
    RenderedBoxesWired(lists, selected, showEmptyList, boxes);
    WiredBoxesHoldGroups(boxes, lists, selected, showEmptyList);
  }

  /** The wiring part of RenderBoxes, for a container named by its boxes. */
  lemma RenderedBoxesWired(lists: seq<Item>, selected: seq<Number>, showEmptyList: bool, boxes: seq<Box>)
    requires Render(lists, selected, showEmptyList) == Container(boxes)
    ensures BoxesWired(boxes, GroupMap(lists), selected, showEmptyList)
  {
    RenderBoxes(lists, selected, showEmptyList);
  }
}
