/**
 * The inventory list screen's query: keep the items whose name contains the
 * search text (ignoring case), then sort them stably by name, quantity or
 * price, ascending or descending.
 */
module ViewInventory {
  import opened Base
  import opened Text
  import opened InventoryModel

  /** The screen's initial search text, sort attribute and sort order. */
  const InitialSearchQuery := ""
  const InitialSortAttribute := "Name"
  const InitialSortOrder := "Ascending"

  datatype SortKey = ByName | ByQuantity | ByPrice

  /** `compareBy { key }` when `descending` is false, `compareByDescending { key }` otherwise. */
  datatype Comparator = Comparator(key: SortKey, descending: bool)

  /** The `when (sortAttribute)` that picks the comparator. */
  function ComparatorFor(sortAttribute: string, sortOrder: string): Comparator {
    if sortAttribute == "Name" then Comparator(ByName, sortOrder != "Ascending")
    else if sortAttribute == "Quantity" then Comparator(ByQuantity, sortOrder != "Ascending")
    else if sortAttribute == "Price" then Comparator(ByPrice, sortOrder != "Ascending")
    else Comparator(ByName, false)
  }

  /** The key of `a` is at most the key of `b`. */
  predicate KeyLe(key: SortKey, a: Inventory, b: Inventory) {
    match key
    case ByName => StrLe(a.name, b.name)
    case ByQuantity => a.quantity <= b.quantity
    case ByPrice => a.price <= b.price
  }

  /** `c.compare(a, b) <= 0`: `a` may come before `b`. */
  predicate NotAfter(c: Comparator, a: Inventory, b: Inventory) {
    if c.descending then KeyLe(c.key, b, a) else KeyLe(c.key, a, b)
  }

  lemma NotAfterTotal(c: Comparator, a: Inventory, b: Inventory)
    ensures NotAfter(c, a, b) || NotAfter(c, b, a)
  {
    if c.key == ByName {
      StrLeTotal(a.name, b.name);
    }
  }

  lemma NotAfterTransitive(c: Comparator, a: Inventory, b: Inventory, d: Inventory)
    requires NotAfter(c, a, b) && NotAfter(c, b, d)
    ensures NotAfter(c, a, d)
  {
    if c.key == ByName {
      if c.descending {
        StrLeTransitive(d.name, b.name, a.name);
      } else {
        StrLeTransitive(a.name, b.name, d.name);
      }
    }
  }

  /** `s` is ordered by `c`. */
  predicate Sorted(c: Comparator, s: seq<Inventory>) {
    forall i, j :: 0 <= i < j < |s| ==> NotAfter(c, s[i], s[j])
  }

  lemma SortedTail(c: Comparator, s: seq<Inventory>)
    requires Sorted(c, s) && s != []
    ensures Sorted(c, s[1..])
  {
    forall i, j | 0 <= i < j < |s| - 1
      ensures NotAfter(c, s[1..][i], s[1..][j])
    {
      assert s[1..][i] == s[i + 1] && s[1..][j] == s[j + 1];
    }
  }

  // ---------------------------------------------------------------------
  // sortedWith: a stable sort, here an insertion sort
  // ---------------------------------------------------------------------

  /** Places `x` after every element of `s` that does not compare greater than it. */
  function Insert(c: Comparator, x: Inventory, s: seq<Inventory>): seq<Inventory> {
    if s == [] then [x]
    else if !NotAfter(c, s[0], x) then [x] + s
    else [s[0]] + Insert(c, x, s[1..])
  }

  /** `s.sortedWith(c)`: each element in turn is inserted behind its equals. */
  function SortWith(c: Comparator, s: seq<Inventory>): seq<Inventory> {
    if s == [] then [] else Insert(c, s[|s| - 1], SortWith(c, s[..|s| - 1]))
  }

  /** Putting in front of a sorted sequence an element that may precede all of it keeps it sorted. */
  lemma SortedCons(c: Comparator, x: Inventory, s: seq<Inventory>)
    requires Sorted(c, s)
    requires forall j :: 0 <= j < |s| ==> NotAfter(c, x, s[j])
    ensures Sorted(c, [x] + s)
  {
    var r := [x] + s;
    forall i, j | 0 <= i < j < |r|
      ensures NotAfter(c, r[i], r[j])
    {
      assert r[j] == s[j - 1];
      if i > 0 {
        assert r[i] == s[i - 1];
      }
    }
  }

  lemma {:induction false} InsertPermutes(c: Comparator, x: Inventory, s: seq<Inventory>)
    ensures multiset(Insert(c, x, s)) == multiset(s) + multiset{x}
  {
    if s != [] && NotAfter(c, s[0], x) {
      InsertPermutes(c, x, s[1..]);
      assert s == [s[0]] + s[1..];
    }
  }

  lemma {:induction false} InsertSorted(c: Comparator, x: Inventory, s: seq<Inventory>)
    requires Sorted(c, s)
    ensures Sorted(c, Insert(c, x, s))
  {
    if s == [] {
    } else if !NotAfter(c, s[0], x) {
      NotAfterTotal(c, s[0], x);
      forall j | 0 <= j < |s|
        ensures NotAfter(c, x, s[j])
      {
        if j > 0 {
          NotAfterTransitive(c, x, s[0], s[j]);
        }
      }
      SortedCons(c, x, s);
    } else {
      SortedTail(c, s);
      InsertSorted(c, x, s[1..]);
      InsertPermutes(c, x, s[1..]);
      var t := Insert(c, x, s[1..]);
      forall j | 0 <= j < |t|
        ensures NotAfter(c, s[0], t[j])
      {
        assert t[j] in multiset(t);
        if t[j] != x {
          assert t[j] in multiset(s[1..]);
          var k :| 0 <= k < |s[1..]| && s[1..][k] == t[j];
          assert s[k + 1] == t[j];
        }
      }
      SortedCons(c, s[0], t);
    }
  }

  /** The sort returns a permutation of its input, ordered by the comparator. */
  lemma {:induction false} SortWithCorrect(c: Comparator, s: seq<Inventory>)
    ensures multiset(SortWith(c, s)) == multiset(s)
    ensures Sorted(c, SortWith(c, s))
  {
    if s != [] {
      var p := s[..|s| - 1];
      SortWithCorrect(c, p);
      InsertPermutes(c, s[|s| - 1], SortWith(c, p));
      InsertSorted(c, s[|s| - 1], SortWith(c, p));
      assert s == p + [s[|s| - 1]];
    }
  }

  // ---------------------------------------------------------------------
  // Stability
  // ---------------------------------------------------------------------

  /** `a` and `b` compare equal under `c`. */
  predicate Equivalent(c: Comparator, a: Inventory, b: Inventory) {
    NotAfter(c, a, b) && NotAfter(c, b, a)
  }

  /** The elements of `s` that compare equal to `k`, in their order in `s`. */
  function Ties(c: Comparator, s: seq<Inventory>, k: Inventory): seq<Inventory> {
    if s == [] then []
    else (if Equivalent(c, s[0], k) then [s[0]] else []) + Ties(c, s[1..], k)
  }

  lemma {:induction false} TiesAppend(c: Comparator, a: seq<Inventory>, b: seq<Inventory>, k: Inventory)
    ensures Ties(c, a + b, k) == Ties(c, a, k) + Ties(c, b, k)
  {
    if a == [] {
      assert a + b == b;
    } else {
      TiesAppend(c, a[1..], b, k);
      assert (a + b)[1..] == a[1..] + b;
    }
  }

  lemma {:induction false} TiesNone(c: Comparator, s: seq<Inventory>, k: Inventory)
    requires forall i :: 0 <= i < |s| ==> !Equivalent(c, s[i], k)
    ensures Ties(c, s, k) == []
  {
    if s != [] {
      TiesNone(c, s[1..], k);
    }
  }

  lemma {:induction false} InsertStable(c: Comparator, x: Inventory, s: seq<Inventory>, k: Inventory)
    requires Sorted(c, s)
    ensures Ties(c, Insert(c, x, s), k) == Ties(c, s, k) + Ties(c, [x], k)
  {
    assert Ties(c, [x], k) == if Equivalent(c, x, k) then [x] else [];
    if s == [] {
    } else if !NotAfter(c, s[0], x) {
      TiesAppend(c, [x], s, k);
      if Equivalent(c, x, k) {
        // Everything in s compares strictly greater than x, hence than k.
        forall i | 0 <= i < |s|
          ensures !Equivalent(c, s[i], k)
        {
          if NotAfter(c, s[i], k) {
            NotAfterTransitive(c, s[i], k, x);
            if i > 0 {
              NotAfterTransitive(c, s[0], s[i], x);
            }
          }
        }
        TiesNone(c, s, k);
      }
    } else {
      SortedTail(c, s);
      InsertStable(c, x, s[1..], k);
      TiesAppend(c, [s[0]], Insert(c, x, s[1..]), k);
      TiesAppend(c, [s[0]], s[1..], k);
      assert s == [s[0]] + s[1..];
    }
  }

  /** Items that compare equal keep their input order. */
  lemma {:induction false} SortStable(c: Comparator, s: seq<Inventory>, k: Inventory)
    ensures Ties(c, SortWith(c, s), k) == Ties(c, s, k)
  {
    if s != [] {
      var p := s[..|s| - 1];
      SortStable(c, p, k);
      SortWithCorrect(c, p);
      InsertStable(c, s[|s| - 1], SortWith(c, p), k);
      assert s == p + [s[|s| - 1]];
      TiesAppend(c, p, [s[|s| - 1]], k);
    }
  }

  // ---------------------------------------------------------------------
  // filter { it.name.contains(searchQuery, ignoreCase = true) }
  // ---------------------------------------------------------------------

  /** The items whose name contains `query`, ignoring case, in input order. */
  function Matching(items: seq<Inventory>, query: string): (r: seq<Inventory>)
    ensures forall x :: x in r ==> ContainsIgnoringCase(x.name, query)
    ensures |r| <= |items|
  {
    if items == [] then []
    else (if ContainsIgnoringCase(items[0].name, query) then [items[0]] else []) + Matching(items[1..], query)
  }

  /** The filter keeps each matching item as often as it occurs, and drops every other item. */
  lemma {:induction false} MatchingCount(items: seq<Inventory>, query: string, x: Inventory)
    ensures multiset(Matching(items, query))[x] ==
            if ContainsIgnoringCase(x.name, query) then multiset(items)[x] else 0
  {
    if items != [] {
      MatchingCount(items[1..], query, x);
      assert items == [items[0]] + items[1..];
    }
  }

  /** An empty search keeps the list as it is. */
  lemma {:induction false} MatchingEmptyQuery(items: seq<Inventory>)
    ensures Matching(items, "") == items
  {
    if items != [] {
      MatchingEmptyQuery(items[1..]);
      ContainsIgnoringCaseTrivial(items[0].name);
      assert items == [items[0]] + items[1..];
    }
  }

  // ---------------------------------------------------------------------
  // filteredItems
  // ---------------------------------------------------------------------

  /** `inventoryItems.filter { ... }.sortedWith(...)`. */
  function FilteredItems(items: seq<Inventory>, searchQuery: string, sortAttribute: string, sortOrder: string)
    : (r: seq<Inventory>)
    ensures multiset(r) == multiset(Matching(items, searchQuery))
    ensures Sorted(ComparatorFor(sortAttribute, sortOrder), r)
  {
    var matching := Matching(items, searchQuery);
    SortWithCorrect(ComparatorFor(sortAttribute, sortOrder), matching);
    SortWith(ComparatorFor(sortAttribute, sortOrder), matching)
  }

  /** The list shows exactly the items that pass the filter, each as often as in the input. */
  lemma FilteredItemsAreTheMatches(items: seq<Inventory>, searchQuery: string, sortAttribute: string,
                                   sortOrder: string, x: Inventory)
    ensures multiset(FilteredItems(items, searchQuery, sortAttribute, sortOrder))[x] ==
            if ContainsIgnoringCase(x.name, searchQuery) then multiset(items)[x] else 0
    ensures x in FilteredItems(items, searchQuery, sortAttribute, sortOrder) <==>
            x in items && ContainsIgnoringCase(x.name, searchQuery)
  {
    MatchingCount(items, searchQuery, x);
  }

  /** With an empty search every item is listed. */
  lemma EmptySearchKeepsAll(items: seq<Inventory>, sortAttribute: string, sortOrder: string)
    ensures multiset(FilteredItems(items, "", sortAttribute, sortOrder)) == multiset(items)
    ensures |FilteredItems(items, "", sortAttribute, sortOrder)| == |items|
  {
    MatchingEmptyQuery(items);
    assert |multiset(FilteredItems(items, "", sortAttribute, sortOrder))| == |multiset(items)|;
  }

  /** The order of the list, stated on the item fields for each attribute and order. */
  lemma FilteredItemsOrder(items: seq<Inventory>, searchQuery: string, sortAttribute: string,
                           sortOrder: string, i: int, j: int)
    requires 0 <= i < j < |FilteredItems(items, searchQuery, sortAttribute, sortOrder)|
    ensures sortAttribute == "Name" && sortOrder == "Ascending" ==>
            StrLe(FilteredItems(items, searchQuery, sortAttribute, sortOrder)[i].name,
                  FilteredItems(items, searchQuery, sortAttribute, sortOrder)[j].name)
    ensures sortAttribute == "Name" && sortOrder != "Ascending" ==>
            StrLe(FilteredItems(items, searchQuery, sortAttribute, sortOrder)[j].name,
                  FilteredItems(items, searchQuery, sortAttribute, sortOrder)[i].name)
    ensures sortAttribute == "Quantity" && sortOrder == "Ascending" ==>
            FilteredItems(items, searchQuery, sortAttribute, sortOrder)[i].quantity <=
            FilteredItems(items, searchQuery, sortAttribute, sortOrder)[j].quantity
    ensures sortAttribute == "Quantity" && sortOrder != "Ascending" ==>
            FilteredItems(items, searchQuery, sortAttribute, sortOrder)[i].quantity >=
            FilteredItems(items, searchQuery, sortAttribute, sortOrder)[j].quantity
    ensures sortAttribute == "Price" && sortOrder == "Ascending" ==>
            FilteredItems(items, searchQuery, sortAttribute, sortOrder)[i].price <=
            FilteredItems(items, searchQuery, sortAttribute, sortOrder)[j].price
    ensures sortAttribute == "Price" && sortOrder != "Ascending" ==>
            FilteredItems(items, searchQuery, sortAttribute, sortOrder)[i].price >=
            FilteredItems(items, searchQuery, sortAttribute, sortOrder)[j].price
    ensures sortAttribute != "Name" && sortAttribute != "Quantity" && sortAttribute != "Price" ==>
            StrLe(FilteredItems(items, searchQuery, sortAttribute, sortOrder)[i].name,
                  FilteredItems(items, searchQuery, sortAttribute, sortOrder)[j].name)
  {
  }

  /** An attribute other than Name, Quantity or Price sorts by name ascending, whatever the order. */
  lemma UnknownAttributeSortsByName(items: seq<Inventory>, searchQuery: string, sortAttribute: string,
                                    sortOrder: string)
    requires sortAttribute != "Name" && sortAttribute != "Quantity" && sortAttribute != "Price"
    ensures FilteredItems(items, searchQuery, sortAttribute, sortOrder) ==
            FilteredItems(items, searchQuery, "Name", "Ascending")
  {
  }

  /** Items whose keys compare equal appear in the list in their input order. */
  lemma FilteredItemsStable(items: seq<Inventory>, searchQuery: string, sortAttribute: string,
                            sortOrder: string, k: Inventory)
    ensures Ties(ComparatorFor(sortAttribute, sortOrder), FilteredItems(items, searchQuery, sortAttribute, sortOrder), k) ==
            Ties(ComparatorFor(sortAttribute, sortOrder), Matching(items, searchQuery), k)
  {
    SortStable(ComparatorFor(sortAttribute, sortOrder), Matching(items, searchQuery), k);
  }

  /** When the screen opens, every loaded item is listed, by name ascending. */
  lemma InitialListing(items: seq<Inventory>)
    ensures ComparatorFor(InitialSortAttribute, InitialSortOrder) == Comparator(ByName, false)
    ensures multiset(FilteredItems(items, InitialSearchQuery, InitialSortAttribute, InitialSortOrder)) ==
            multiset(items)
  {
    EmptySearchKeepsAll(items, InitialSortAttribute, InitialSortOrder);
  }
}
