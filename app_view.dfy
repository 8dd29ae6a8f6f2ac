/** The history window: the search filter and the local delete. */
module AppView {
  import opened Strings
  import opened Sequences
  import opened Entries

  /** The search test: the lower-cased content contains the lower-cased query. */
  predicate Matches(item: Entry, query: string) {
    Includes(Lower(item.content), Lower(query))
  }

  /** `filteredItems`: every matching item with all its copies, and no other item. */
  function FilteredItems(items: seq<Entry>, query: string): (r: seq<Entry>)
    ensures |r| <= |items|
    ensures forall x :: multiset(r)[x] == if Matches(x, query) then multiset(items)[x] else 0
  {
    Filter(items, (item: Entry) => Matches(item, query))
  }

  /**
   * The search keeps exactly the matching items, each as often as it occurs,
   * in their original order; an empty query keeps everything and searching
   * the result again changes nothing.
   */
  lemma FilteredItemsSpec(items: seq<Entry>, query: string)
    ensures IsSubsequence(FilteredItems(items, query), items)
    ensures forall x :: x in FilteredItems(items, query) <==> x in items && Matches(x, query)
    ensures forall x :: multiset(FilteredItems(items, query))[x] == if Matches(x, query) then multiset(items)[x] else 0
    ensures FilteredItems(items, "") == items
    ensures FilteredItems(FilteredItems(items, query), query) == FilteredItems(items, query)
  {
    FilterIsSubsequence(items, (item: Entry) => Matches(item, query));
    forall i | 0 <= i < |items| ensures Matches(items[i], "") {
      assert Lower("") == "";
      assert OccursAt(Lower(items[i].content), "", 0);
    }
    FilterKeepsAll(items, (item: Entry) => Matches(item, ""));
    FilterIdempotent(items, (item: Entry) => Matches(item, query));
  }

  /** `handleDelete`: drop every item with that id. */
  function HandleDelete(items: seq<Entry>, id: string): (r: seq<Entry>)
    ensures |r| <= |items|
    ensures forall x :: multiset(r)[x] == if x.id != id then multiset(items)[x] else 0
  {
    Filter(items, (item: Entry) => item.id != id)
  }

  /** Every item with the id goes and every other stays, with all its copies, in order. */
  lemma HandleDeleteSpec(items: seq<Entry>, id: string)
    ensures IsSubsequence(HandleDelete(items, id), items)
    ensures forall x :: x in HandleDelete(items, id) <==> x in items && x.id != id
    ensures forall x :: multiset(HandleDelete(items, id))[x] == if x.id != id then multiset(items)[x] else 0
  {
    FilterIsSubsequence(items, (item: Entry) => item.id != id);
  }

  /** Deleting an id no item has changes nothing. */
  lemma HandleDeleteAbsent(items: seq<Entry>, id: string)
    requires forall i :: 0 <= i < |items| ==> items[i].id != id
    ensures HandleDelete(items, id) == items
  {
    FilterKeepsAll(items, (item: Entry) => item.id != id);
  }
}
